# Mercury: verified models of the RPC and bulk engine

Mercury is an asynchronous RPC and bulk-transfer engine. This project models the
four parts of it whose correctness rests on more than one function, and proves
what they promise, for every input, every interleaving and every run. It is
written for Dafny 4.11; `dafny verify dfyconfig.toml` checks all of it. The build
modelled is the one without XDR, checksums and shared-memory routing.

| part | files |
|---|---|
| Lock-free ring: masked indices, FIFO, what every answer means, lock-freedom, and what it does not promise | `Masking`, `AtomicQueue`, `RingAnswers`, `RingLimits` |
| Two-tier completion queue on top of the ring: nothing lost, everything served, wake-up protocol | `Sums`, `Completion`, `Conservation`, `Service`, `Wakeup`, `LostWakeup` |
| RPC handle: life cycle, meaning of its status, what is executed and answered | `NaCount`, `RpcHandle`, `RpcStatus`, `RpcService` |
| Bulk transfers, their completion, and the pool of operation IDs | `BulkTransfer`, `BulkEngine`, `BulkCompletion`, `OpPool` |
| Serialization: growing buffer, bulk descriptors, structures, overflowing payloads, message headers | `Bytes`, `Proc`, `BulkCodec`, `BulkWire`, `ProcBulk`, `Codecs`, `Payload`, `CoreHeader` |

## How the model reads the code

Concurrent code is a transition system: one atomic load, store,
compare-and-swap or critical section per step, any number of threads, sequential
consistency. A run is a sequence of states and actions, and the main results are
about every state of every run. Where the code relies on something it does not
enforce, the hypothesis is a named predicate on states: `AtomicQueue.NoLap` (no
whole revolution of a head between a thread's read of it and its
compare-and-swap), `Wakeup.LoadsRight` (where the two loads of
`hg_atomic_queue_is_empty` agree, `cons_head` first, it still has the value
loaded, as it has unless the producers went a whole revolution in between),
`RpcHandle.Timely` (a receive does not call back before it is counted),
`RpcHandle.CallerStays` (a forward or respond that is under way does not lose its
caller's reference to a destroy), `RpcHandle.CallOver` (a handle is not forwarded
or reset while a forward or respond of it is under way) and `RpcHandle.SelfFree`
(a handle forwarded to oneself is not forwarded or reset again before its
callback). Each of the six comes with a run that shows what happens without it:
`RingLimits.LappedProducerLosesEntries`, `LostWakeup.HeadFirstLosesWakeup`,
`RpcHandle.EarlyCallbackFoolsGuard`, `RpcHandle.FreedUnderForward`,
`RpcHandle.ForwardedDuringCancel` and `RpcHandle.SelfForwardedTwice`.

Sequential code that works in place is imperative: the transfer loops move
cursors over an array of bytes, the serialization buffer is a class, encoders
write through a cursor. Each such method is proved against a specification
function or against the flat meaning of the data, and the laws are proved about
those.

Words of the source keep their meaning: tickets are the unmasked counterparts of
the ring's four indices and are read by no branch; tokens say who holds each
reference of a handle and are read by no branch either.

## What turned out not to hold

- A pop that answers NULL need not have seen an empty ring, even when no head is
  lapped: `RingLimits.SpuriousNull`. It is right exactly when the producers are
  not a whole revolution ahead (`RingAnswers.NullIsLinearizable`), and always for
  a lone consumer.
- `hg_atomic_queue_is_empty` makes its two loads in an order C leaves open. With
  `prod_tail` first no wake-up is lost (`Wakeup.ProgressNotLostTailFirst`). With
  `cons_head` first one can be (`LostWakeup.HeadFirstLosesWakeup`): where the
  loads agree, what sleeping then loses is exactly what the ring holds of
  self-notified entries, and it holds none if `cons_head` still has the value
  loaded (`LostWakeup.SleepLosesIff`).
- `hg_core_forward_na` counts its receive after posting it. A receive that calls
  back in between is counted against the wrong total: the handle is queued twice,
  or never. It is queued exactly once if and only if that callback read the final
  count (`NaCount.ExactlyOnceIff`). The same callback fools the guard of a
  second forward (`RpcHandle.EarlyCallbackFoolsGuard`).
- A forward or respond whose send could not be posted uses the handle after taking
  its count back, when its receive may already have completed the handle and the
  callback destroyed it: it is then freed under the forward
  (`RpcHandle.FreedUnderForward`) or posted again under the respond
  (`RpcHandle.RepostedUnderRespond`). That happens exactly when the call is about
  to cancel and the reference given up is the last one
  (`RpcHandle.ReleasedUnderCallIff`), and never to callers who stay
  (`RpcHandle.NeverReleasedUnderCall`).
- The guard of `hg_core_forward` opens before the previous use is over: for an NA
  origin exactly when a failed forward has only its cancel ahead of it and its
  receive is over (`RpcHandle.GuardDuringCallIff`), for a handle forwarded to
  oneself exactly while the RPC runs, owes its response or acquires its output
  (`RpcHandle.SelfGuardEarlyIff`).
- The 64-bit header macro swaps the halves on a big-endian host: an RPC id
  crosses between hosts of different byte order exactly when its halves are equal
  (`CoreHeader.RoundTrip64Iff`); id 1 arrives as 2^32 (`CoreHeader.IdOneIsLost`).
- A handle received with eager data frees memory it did not allocate exactly when
  an empty segment was sent with an address (`BulkCodec.FreedMemoryIsLocal`), as
  one such segment shows (`BulkCodec.EmptySegmentFreesForeign`).
- The comment on the response header (`src/mercury_core_header.h:81-82`) gives
  flags before the return code; the code writes the return code first, and so
  does the model.

## Model

| member | source | states |
|---|---|---|
| `Masking.MaskedBySize` | src/util/mercury_atomic_queue.c:54-63 | for a power-of-two size, masking an index with size - 1 is the remainder by the size |
| `Masking.SameResidue` | install/include/mercury_atomic_queue.h:178-179 | a compare-and-swap on masked values compares tickets as long as they are less than a revolution apart |
| `AtomicQueue.StepKeepsInv` | install/include/mercury_atomic_queue.h:159-225 | every atomic step of push and pop_mc keeps the index order, the slot contents, exclusive tickets and what each thread knows |
| `AtomicQueue.RunsKeepInv` | install/include/mercury_atomic_queue.h:159-225 | so does every run of any number of producers and consumers in which no head is lapped |
| `AtomicQueue.StepRefinesFifo` | install/include/mercury_atomic_queue.h:159-225 | the ring refines a bounded FIFO: publishing appends the producer's entry, a consumer's claim removes the oldest and will load it, all other steps leave the FIFO alone |
| `AtomicQueue.PopsReturnPushesInOrder` | install/include/mercury_atomic_queue.h:159-225 | in every run cons_tail <= cons_head <= prod_tail <= prod_head <= cons_tail + size - 1; what pops returned is a prefix of what was pushed, and a pop with ticket t returned the entry pushed with ticket t |
| `AtomicQueue.RunsCountClaims` | install/include/mercury_atomic_queue.h:178-193 | in every run, lapped or not, as many threads are inside a claim as there are tickets between a tail and its head |
| `AtomicQueue.EveryTicketHeld` | install/include/mercury_atomic_queue.h:178-193 | when no head is lapped, each of those tickets is held by one thread inside its call, and by one only |
| `AtomicQueue.IdleRing` | install/include/mercury_atomic_queue.h:159-225 | with no call in progress the pushed entries are those returned followed by those in the FIFO |
| `RingAnswers.FullIsLinearizable` | install/include/mercury_atomic_queue.h:163-179 | in every run, by whatever step a push comes to answer "full", size - 1 tickets were outstanding at an instant inside that very call, and the drop is counted |
| `RingAnswers.OnlyFullDrops` | install/include/mercury_atomic_queue.h:169-173 | nothing else is counted as a drop |
| `RingAnswers.OkIsLinearizable` | install/include/mercury_atomic_queue.h:181-193 | by whatever step a push comes to answer "ok", that step appends the entry it was called with to the FIFO |
| `RingAnswers.GotIsLinearizable` | install/include/mercury_atomic_queue.h:210-224 | by whatever step a pop comes to answer with an entry, that entry was the oldest at an instant inside that very call and was taken then |
| `RingAnswers.OverOnlyIfBeaten` | install/include/mercury_atomic_queue.h:178-211 | lock-freedom: a call begins another attempt only after a failed compare-and-swap, and then another thread has claimed a ticket since it read the head |
| `RingAnswers.LoneFinishes` | install/include/mercury_atomic_queue.h:159-225 | from wherever it stands, a call left alone answers within eleven steps |
| `RingAnswers.PushRuns` | install/include/mercury_atomic_queue.h:159-193 | a push left alone appends its entry, or answers "full" exactly on a full ring |
| `RingAnswers.PopRuns` | install/include/mercury_atomic_queue.h:198-225 | a pop left alone takes the oldest entry, or answers NULL exactly on an empty FIFO |
| `AtomicQueue.ClaimHasRoom` | install/include/mercury_atomic_queue.h:168-179 | also after `continue`, which goes to the compare-and-swap, a successful claim had a free slot at that very step |
| `AtomicQueue.ClaimKeepsBoundsIff` | install/include/mercury_atomic_queue.h:178-179 | a claim keeps the ring sound if and only if there is room, whatever was read before |
| `AtomicQueue.NullAnswer` | install/include/mercury_atomic_queue.h:203-208 | a NULL answer means an empty FIFO at the read of prod_tail, or a whole revolution of the producers past this thread's cons_head |
| `AtomicQueue.NullRightIff` | install/include/mercury_atomic_queue.h:203-208 | NULL is right if and only if prod_tail is less than a revolution ahead |
| `RingAnswers.NullIsLinearizable` | install/include/mercury_atomic_queue.h:203-211 | in every run, by whatever step a pop comes to answer NULL, it read cons_head and then prod_tail inside that very call, and the FIFO is empty at the second instant if and only if prod_tail is then less than a revolution ahead of what the first one read |
| `AtomicQueue.NullExactForLoneConsumer` | install/include/mercury_atomic_queue.h:203-208 | as long as no other consumer moved cons_head, NULL is answered exactly when the FIFO is empty |
| `AtomicQueue.EmptyAnswerExact` | install/include/mercury_atomic_queue.h:254-258 | the answer "empty", cons_head loaded first, is right if and only if cons_head still has the value loaded; as long as the consumers did not go a whole revolution between the loads, if and only if the producers did not either (if both did and the consumers caught up, it is right again) |
| `AtomicQueue.CountIsDifference` | install/include/mercury_atomic_queue.h:262-268 | with its two loads at any two instants, in either order, the count is the difference of the tickets loaded, up to whole revolutions, and exactly that if and only if it is between zero and the size |
| `AtomicQueue.CountIsOccupancy` | install/include/mercury_atomic_queue.h:262-268 | with both loads at one instant it is the number of published entries not yet released |
| `RingLimits.LappedProducerLosesEntries` | install/include/mercury_atomic_queue.h:163-193 | a run of size 2 in which a lapped producer claims a full ring and two entries become invisible |
| `RingLimits.SpuriousNull` | install/include/mercury_atomic_queue.h:203-208 | a run of size 4, no head lapped, in which a pop answers NULL although the FIFO never was empty during the call |
| `Completion.ApplyKeepsStructure` | src/mercury_core.c:3629-4044 | every step of adders, trigger and progress keeps the ring sound, both mutexes exclusive, the trigger the only consumer, and the backfill count in step with the queue |
| `Completion.RunsKeepStructure` | src/mercury_core.c:3629-4044 | so does every run in which no producer is lapped |
| `Completion.CountIsLength` | src/mercury_core.c:3647-3651 | whenever the completion mutex is free, backfill_queue_count is the length of the backfill queue; it is never off by more than one |
| `Conservation.ApplyConserves` | src/mercury_core.c:3643-3652 | every step conserves: added = run + in the trigger's hand + in the ring + in the backfill queue + carried by adders, as multisets |
| `Conservation.RunsConserve` | src/mercury_core.c:3966-4044 | so does every run, and every addition is distinct |
| `Conservation.TriggeredAtMostOnce` | src/mercury_core.c:3966-4044 | only added entries are run, and each at most once |
| `Conservation.NothingLost` | src/mercury_core.c:3966-4044 | with no addition in progress and the trigger between calls, added = run + in the ring's FIFO + in the backfill queue, and the count is exact |
| `Service.NothingFound` | src/mercury_core.c:3969-3994 | in every run, a trigger that goes on without taking an entry read prod_tail on an empty ring in that turn, and the backfill queue holds at most the entry of an adder that has not counted it |
| `Service.TakesTheHead` | src/mercury_core.c:3972-3977 | having read a count it finds the backfill queue non-empty and takes its head |
| `Service.Serves` | src/mercury_core.c:3966-4036 | when nobody adds, at most twelve steps of the trigger run the first entry of ring and backfill queue |
| `Service.ServesAll` | src/mercury_core.c:3966-4036 | it then runs all of them, the ring's and after them the backfill queue's, in order |
| `Service.EverythingIsRun` | src/mercury_core.c:3966-4036 | in every run, once additions are over, what the trigger runs in the end is exactly what was added |
| `Service.IdleTurn` | src/mercury_core.c:3979-4001 | with nothing to run it leaves, or waits if it has time left, and changes nothing else |
| `Service.SignalEndsWait` | src/mercury_core.c:3993-4008 | a trigger signalled while it waits is at its next turn after two steps |
| `Service.ProgressTurn` | src/mercury_core.c:3693-3744 | undisturbed, the progress thread goes to sleep, asking to be notified, exactly when the ring is empty, the count is zero and NA agrees; otherwise it leaves everything as it was |
| `Service.WakesUp` | src/mercury_core.c:3774-3945 | when it wakes, the request to be notified is withdrawn and one event consumed |
| `Service.MustNotifyIff` | src/mercury_core.c:3701-3774 | in every run must_notify is set exactly while the progress thread is about to sleep, sleeps or has just woken |
| `Wakeup.EventOnlyForSelfNotified` | src/mercury_core.c:3660-3672 | in every run the event is raised only by the adder of a self-notified entry |
| `Wakeup.SecondLoadClear` | src/mercury_core.c:3739-3744 | when the two loads of the emptiness test agree, no entry that needs a wake-up is in the ring |
| `Wakeup.ZeroCountClear` | src/mercury_core.c:3743-3744 | a zero backfill count leaves at most the entry of an adder that has not counted it yet |
| `Wakeup.ApplyKeepsProgress` | src/mercury_core.c:3693-3774 | every step keeps what the progress thread has found out about both queues, from its first load to its sleep |
| `Wakeup.LoadsRightIff` | src/mercury_core.c:3739-3744 | where the loads agree, cons_head first, the ring is empty if and only if cons_head still has the value loaded, and it has if the producers did not go a whole revolution |
| `Wakeup.ProgressNotLost` | src/mercury_core.c:3693-3774 | in no run whose emptiness tests are right in that sense is the progress thread blocked with the event unset while a self-notified entry whose adder has returned is in either queue |
| `Wakeup.ProgressNotLostTailFirst` | src/mercury_core.c:3693-3774 | the same of every run in which prod_tail is loaded first, with no hypothesis on what happens between the loads |
| `Wakeup.TriggerNotLost` | src/mercury_core.c:3991-4001 | in no run does the trigger wait unsignalled while an entry whose adder has passed its signal is in either queue, in either order of the loads |
| `LostWakeup.HeadFirstLosesWakeup` | src/mercury_core.c:3739-3757 | a run with cons_head loaded first, no producer lapped, that ends with progress asleep, no event set and a self-notified entry of a returned adder in the ring |
| `LostWakeup.SleepLosesIff` | src/mercury_core.c:3739-3757 | in every run, where the loads agree, the backfill count is zero and no event is set, the progress thread can go to sleep; what is lost then are exactly the self-notified entries of returned adders in the ring, and there are none with prod_tail loaded first or with right loads |
| `NaCount.ExactlyOnceIff` | src/mercury_core.c:2735-2806 | for every order of send, receive and ack callbacks, with success or failure to post the receive and the send: the call fails with nothing queued exactly when nothing could be posted; otherwise the handle is queued exactly once if and only if the pre-posted receive's callback read the final operation count, and more than once only when it read too little |
| `NaCount.RespondOnce` | src/mercury_core.c:2905-2995 | a respond is never queued twice, and exactly once unless an ack was expected and the send could not be posted |
| `NaCount.LateCallbackIsTimely` | src/mercury_core.c:3590-3605 | a receive that calls back after the call returned always read the final count |
| `NaCount.QueuedTwice` | src/mercury_core.c:2748-2762 | the run that queues a forward twice |
| `NaCount.NeverQueued` | src/mercury_core.c:2781-2798 | the run that never queues it |
| `RpcHandle.RollbackKeepsInv` | src/mercury_core.c:2712-2719 | a failed forward or respond gives back its reference, and that is never the last one |
| `RpcHandle.DropKeepsInv` | src/mercury_core.c:2190-2235 | giving up a reference keeps the life cycle sound, also when it was the last and the handle is freed or posted again |
| `RpcHandle.ApplyKeepsInv` | src/mercury_core.c:2635-3625 | every step of forward, respond, no-respond, self-forward, callbacks, trigger, cancel, reset, destroy and repost keeps it, for considerate callers and timely callbacks |
| `RpcHandle.RefsAreTokens` | src/mercury_core.c:2647-2649 | in every run ref_count is the number of references held (creator, operation in flight, running triggers, pending response, RPC callback, decoded structs), and the handle is gone exactly when there are none |
| `RpcHandle.ReleasedWithLastToken` | src/mercury_core.c:2190-2235 | it is freed or posted again exactly by the step that gives up the last reference, and then its entry is in no queue, no forward or respond is under way, nothing is being acquired and no other NA operation is outstanding |
| `RpcHandle.NeverReleasedUnderCall` | src/mercury_core.c:2735-2995 | in every run of considerate callers a handle is neither gone, nor freed or posted again, while a forward or respond of it is under way |
| `RpcHandle.ReleasedUnderCallIff` | src/mercury_core.c:2781-2805 | after every such run, a further destroy releases the handle under a call if and only if the call is about to cancel, its caller does not stay, and no operation, RPC callback or decoded struct holds a reference |
| `RpcHandle.CompletedExactlyOnce` | src/mercury_core.c:3590-3625 | every operation begun is queued exactly once or rolled back once, or still going on; the QUEUED bit says whether the entry is queued |
| `RpcHandle.GuardExact` | src/mercury_core.c:2642-2645 | "COMPLETED and not QUEUED" holds for an NA origin exactly when no NA operation is outstanding, the entry is in no queue, and a forward under way has nothing left but its cancel |
| `RpcHandle.GuardDuringCallIff` | src/mercury_core.c:2642-2645 | for an NA origin the guard admits a forward during another exactly when that one is about to cancel a receive that is over |
| `RpcHandle.SelfGuardEarlyIff` | src/mercury_core.c:2642-2645 | for a self-forwarded handle the guard opens early exactly when the entry is in no queue and the RPC runs or owes its response, or its output is being acquired |
| `RpcHandle.EarlyCallbackFoolsGuard` | src/mercury_core.c:2748-2765 | a run in which a receive is canceled before it is counted and the guard admits a forward while a send is outstanding |
| `RpcHandle.FreedUnderForward` | src/mercury_core.c:2781-2805 | a run with timely callbacks in which a destroy in the callback would free the handle under a forward that is about to cancel its receive: what CallerStays excludes |
| `RpcHandle.RepostedUnderRespond` | src/mercury_core.c:2964-2983 | the same in respond: the handle would be posted again, and the respond would mark the new receive canceled |
| `RpcHandle.ForwardedDuringCancel` | src/mercury_core.c:2789-2799 | a run in which the guard admits a forward from the callback while the first one has its cancel ahead, which then hits the new operation: what CallOver excludes |
| `RpcHandle.SelfForwardedTwice` | src/mercury_core.c:2642-2645 | a run in which the guard admits a second forward of a self-forwarded handle, after which its one entry would be queued twice: what SelfFree excludes |
| `RpcService.RpcRunsIff` | src/mercury_core.c:4084-4097 | in every run, a trigger starts the RPC callback if and only if the action that delivered the entry had the whole request: received so, forwarded to oneself so, or acquired; otherwise it only takes over the entry's reference |
| `RpcService.OnlyTriggersRun` | src/mercury_core.c:4084-4097 | no other step starts one |
| `RpcService.Triggered` | src/mercury_core.c:4113-4156 | every entry is triggered as what its delivering action made it; a response to oneself goes on as the completed forward, at once or when its output is acquired, and nothing else changes |
| `RpcService.AnsweredAsRequested` | src/mercury_core.c:4097-4112 | an executed RPC is answered as its request asked: by the return of its callback if that wanted no response, otherwise by a response, also when the callback failed; until then nothing else is begun |
| `RpcService.ForwardAdmittedIff` | src/mercury_core.c:2635-2731 | a forward is refused without effect exactly when the guard is down; over NA it posts a receive first exactly if a response is expected, to oneself it is queued, acquired or given back as the request was found |
| `RpcService.ResetIsFresh` | src/mercury_core.c:4937-4985 | a reset is refused without effect exactly when the guard is down, and otherwise leaves the handle as created, references aside |
| `RpcStatus.ErroredIff` | src/mercury_core.c:2781-3487 | in every run ERRORED says exactly that an NA operation failed, a send could not be posted or the request could not be read since the operation began |
| `RpcStatus.CanceledIff` | src/mercury_core.c:4168-4211 | CANCELED says exactly that the operation was canceled while going on, by the user or by a call whose send failed |
| `RpcStatus.PostedIff` | src/mercury_core.c:2764-2782 | POSTED says exactly that the call got as far as posting its send and has not been refused it |
| `RpcStatus.FailedIff` | src/mercury_core.c:3059-3160 | the handle's result is a failure exactly if what it waited for could not be had and nothing began since |
| `RpcStatus.OriginNoResponseIff` | src/mercury_core.c:2672-2674 | an NA origin expects no response exactly if a forward since the last reset wanted none |
| `RpcStatus.ServedAsRequested` | src/mercury_core.c:3059-3160 | while a request is served, whether a response is expected is what that request said |
| `RpcStatus.AckIffAsked` | src/mercury_core.c:2905-2950 | an ack is waited for exactly if the response asked for one |
| `RpcStatus.RepostIff` | src/mercury_core.c:1440-1451 | a handle is to be posted again exactly if it listens and was not unposted |
| `RpcStatus.FreedOrListening` | src/mercury_core.c:2190-2235 | giving up the last reference frees the handle exactly if the context is finalized or it is not to be posted again; otherwise it listens as when first posted |
| `BulkTransfer.AddrAt` | src/mercury_bulk.c:1558-1578 | byte `off` of segment `i` is flat byte Before(i) + off |
| `BulkTransfer.TotalIsLen` | src/mercury_bulk.c:1558-1578 | the flat size of a region is the length its handle records |
| `BulkTransfer.PlanTiles` | src/mercury_bulk.c:2262-2293 | the operations of the loop follow each other without gap or overlap and cover exactly [0, size) |
| `BulkTransfer.PlanBound` | src/mercury_bulk.c:2262-2293 | there are at most origin_count + local_count - origin_start - local_start - 1 of them |
| `BulkTransfer.PlanPiecesOk` | src/mercury_bulk.c:2318-2358 | each stays inside one segment on either side, at the right flat position |
| `BulkTransfer.CopyExtends` | src/mercury_bulk.c:2098-2106 | copying any further piece of a transfer copies exactly its bytes and disturbs no other |
| `BulkTransfer.AnyOrderIsFlatCopy` | src/mercury_bulk.c:2300-2365 | carried out in any order, the issued operations make the destination range equal the source range and change nothing else |
| `BulkTransfer.CopiedUnique` | src/mercury_bulk.c:2032-2130 | the flat copy determines memory completely |
| `BulkTransfer.FlatExecCopies` | src/mercury_bulk.c:2166-2180 | what NA does for a single operation, counting offsets through the segments of two registered regions, is the flat copy |
| `BulkTransfer.EffectIsFlatCopy` | src/mercury_bulk.c:2166-2238 | whatever is issued for a transfer, one operation or many, its effect in any order is the flat copy |
| `BulkTransfer.AllPathsAgree` | src/mercury_bulk.c:2166-2238 | the pieces copied one after the other (self), the same as NA operations in any order, and the single NA operation on flat offsets leave the same memory |
| `BulkTransfer.SingleSegmentIsMemcpy` | src/mercury_bulk.c:2166-2180 | for one segment on either side the single operation is the plan's one piece, a memcpy between base plus offset |
| `BulkEngine.OffsetTranslate` | src/mercury_bulk.c:1558-1578 | the index and offset found denote exactly the flat offset; past the end, index 0 and the excess |
| `BulkEngine.Locate` | src/mercury_bulk.c:2056-2064 | translated or left at zero, the cursor stands at the offset |
| `BulkEngine.GetOpCount` | src/mercury_bulk.c:2246-2296 | the count is the number of planned operations |
| `BulkEngine.TransferSegmentsNa` | src/mercury_bulk.c:2300-2365 | the operations issued are the planned ones up to the first that NA refuses, each with its own operation ID; the call succeeds exactly when none is refused, so the count mismatch is unreachable |
| `BulkEngine.CopyPiece` | src/mercury_bulk.c:405-422 | put and get copy one piece in the right direction, between operands that do not overlap |
| `BulkEngine.TransferSegmentsSelf` | src/mercury_bulk.c:2081-2130 | the copy loop ends with the flat copy, the memory a single NA operation would leave, for all segmentations, empty segments included |
| `BulkEngine.TransferSelf` | src/mercury_bulk.c:2032-2077 | translate-then-copy is the flat copy of [offset, offset + size) and nothing else |
| `BulkEngine.TransferNa` | src/mercury_bulk.c:2166-2238 | a single operation on flat offsets exactly when both sides are one region, otherwise the planned operations, which tile [0, size) within the bound; a refused post leaves those before it in flight |
| `BulkTransfer.IssuedAlike` | src/mercury_bulk.c:2246-2365 | which operations are issued depends on the lengths of the segments only, not on where the caller's handle says they lie |
| `BulkEngine.Transfer` | src/mercury_bulk.c:1964-2014 | nothing is issued exactly for a transfer of nothing, with oneself, or a pull of data that came with the handle, and then the flat copy has been made; anything else, a push to another process in particular, is issued to NA, as a single operation exactly when both sides are one region, and the effect on the region the origin itself registered, in any order, is the flat copy |
| `BulkEngine.Access` | src/mercury_bulk.c:1507-1555 | the fragments returned are the flat bytes from the offset on, all of them unless the maximum count was reached, and each reaches to the end of a segment or of the request |
| `BulkCompletion.CompletesOnceAfterTheLast` | src/mercury_bulk.c:2369-2412 | in every interleaving hg_bulk_complete runs at most once, after every operation has counted itself, and has run when all are over; it reports success exactly when all succeeded, else the failure recorded first |
| `BulkCompletion.ErroredIff` | src/mercury_bulk.c:2376-2395 | when the transfer is reported, ERRORED is set exactly if an operation failed; a cancellation does not set it |
| `BulkCompletion.StepsEnd` | src/mercury_bulk.c:2369-2406 | a callback never waits: each of its steps brings it nearer to its end |
| `OpPool.NeverShared` | src/mercury_bulk.c:1853-1906 | no operation ID is listed twice, held twice, or both, and every created one is one of the two |
| `OpPool.SingleExtender` | src/mercury_bulk.c:1870-1879 | at most one thread extends the pool, and threads wait only while one does |
| `OpPool.PoolDoubles` | src/mercury_bulk.c:1881-1896 | after n complete extensions count is init_count * 2^n, and so many IDs exist unless an extension is under way |
| `OpPool.CallEndsWithListed` | src/mercury_bulk.c:1862-1868 | a call ends only by taking the first ID of the list |
| `OpPool.LookingTakes` | src/mercury_bulk.c:1862-1868 | a thread that looks while an ID is listed takes it and extends nothing |
| `OpPool.ExtendedOnlyWhenEmpty` | src/mercury_bulk.c:1870-1879 | the pool begins to be extended only by a thread that found the list empty and has waited for nobody since |
| `OpPool.LoneGets` | src/mercury_bulk.c:1853-1901 | left alone a call ends, at worst after one extension |
| `Bytes.DecodeEncode` | src/mercury_proc.h:100-106 | an integer copied out and in again is the same |
| `Proc.EncodingsConcatenate` | src/mercury_proc.h:139-196 | for every sequence of encodings, buffer size and page size: the bytes used are the encodings one after the other, they fit, and there is an extra buffer exactly when they exceed the caller's |
| `Proc.FieldsConcatenate` | src/mercury_proc.h:139-196 | the same for fields whose encoding depends on the bytes left when their turn comes |
| `Proc.DecodeUndoesEncode` | src/mercury_proc.h:139-196 | decoding fields of the same sizes returns the same fields, whatever follows |
| `Proc.WholePagesFit` | src/mercury_proc.c:240 | the new size is larger than the request by at most a page, so growing never fails here |
| `Proc.HgProc.Reset` | src/mercury_proc.c:155-218 | a reset buffer is empty, is the caller's, has no flags and no extra buffer; what is freed is the old extra buffer, unless it was taken over |
| `Proc.HgProc.SetSize` | src/mercury_proc.c:222-273 | growing keeps every byte used and the position; it is refused exactly when the new size is not larger than both buffers together |
| `Proc.HgProc.CheckSize` | src/mercury_proc.h:89-97 | afterwards the field fits, and a new buffer is allocated only when it did not |
| `Proc.HgProc.Encode` | src/mercury_proc.h:139-196 | an encoding appends exactly its bytes, moving to a larger buffer exactly when specified |
| `Proc.HgProc.Decode` | src/mercury_proc.h:139-196 | as long as the buffer holds the field, decoding returns its bytes and advances past them |
| `Proc.HgProc.SavePtr` | src/mercury_proc.c:277-308 | the place handed out lies behind the bytes used and has the size asked for; none on free |
| `Proc.HgProc.SetExtraBufIsMine` | src/mercury_proc.c:335-349 | ownership passes to the caller exactly when asked and there is an extra buffer |
| `BulkCodec.FlagsRoundTrip` | src/mercury_bulk.c:1060-1071 | the flag byte determines all eight flags |
| `BulkCodec.SizeIsExact` | src/mercury_bulk.c:963-1046 | the announced size is exactly the number of bytes serialization writes |
| `BulkCodec.MemsRoundTrip` | src/mercury_bulk.c:1422-1480 | NA memory handles come back where they were, null where bases are null |
| `BulkCodec.WireRoundTrip` | src/mercury_bulk.c:1252-1418 | deserializing a serialized handle recovers length, segments, memory handles, bind information and eager data; ALLOC is dropped, then set if eager, else VIRT |
| `BulkCodec.EagerOnWireIff` | src/mercury_bulk.c:1064-1068 | on the wire the EAGER bit is set and the data follows everything else exactly for a read-only, non-virtual handle to host memory that was asked to be sent so |
| `BulkCodec.FreedMemoryIsLocal` | src/mercury_bulk.c:1386-1407 | freeing an eagerly received handle frees decoder-allocated memory and null pointers only, if and only if no empty segment was sent with a base |
| `BulkCodec.EmptySegmentFreesForeign` | src/mercury_bulk.c:1391-1394 | a handle with one empty segment that has a base: its receiver frees the sender's address |
| `BulkCodec.SentOnUnchanged` | src/mercury_bulk.c:1060-1071 | a received handle sent on arrives the same, up to local addresses, exactly when it is sent the same way, eager or not |
| `BulkCodec.SameSizeSameWay` | src/mercury_proc_bulk.c:59-83 | for a non-zero length, an unchanged size means it is sent the same way |
| `BulkCodec.CachedBytesAreAsGood` | src/mercury_proc_bulk.c:83-92 | re-encoding from cached bytes and from a fresh serialization of the same size decode to the same handle, up to local addresses |
| `BulkWire.Put` | src/mercury_bulk.c:40-48 | a checked write fails exactly when it does not fit, and then writes nothing |
| `BulkWire.PutMems` | src/mercury_bulk.c:1214-1248 | all sizes, then one handle for each segment with a base |
| `BulkWire.PutData` | src/mercury_bulk.c:1190-1203 | the data of all segments in order, empty ones skipped |
| `BulkWire.Serialize` | src/mercury_bulk.c:1050-1210 | into any part of a buffer: HG_OVERFLOW exactly when that part is smaller than the announced size; otherwise exactly that many bytes are written, all others untouched |
| `BulkWire.Get` | src/mercury_bulk.c:59-66 | a checked read fails exactly when the bytes left are too few, and otherwise gives the next ones |
| `BulkWire.ReadSegments` | src/mercury_bulk.c:1300-1301 | the segment array is read as a whole or not at all, and ends where its entries end |
| `BulkWire.ReadSizes` | src/mercury_bulk.c:1456-1457 | so is the array of handle sizes |
| `BulkWire.ReadBlobs` | src/mercury_bulk.c:1459-1474 | the handle loop reads what the parser says, or overflows |
| `BulkWire.ReadMems` | src/mercury_bulk.c:1303-1363 | a single handle or one for each segment with a base, and where they end |
| `BulkWire.ReadBind` | src/mercury_bulk.c:1365-1384 | address and context ID exactly when BIND is set |
| `BulkWire.ReadData` | src/mercury_bulk.c:1386-1404 | the data loop reads every segment's bytes and gives each non-empty segment its own memory |
| `BulkWire.Deserialize` | src/mercury_bulk.c:1252-1422 | the decoder as it runs, a cursor moved by checked reads, is the inverse of the encoder established by WireRoundTrip |
| `ProcBulk.NullRoundTrip` | src/mercury_proc_bulk.c:45-51 | a null handle is a zero size and back |
| `ProcBulk.HandleRoundTrip` | src/mercury_proc_bulk.c:59-120 | a handle survives as a field, with its data exactly when it was embedded, and its bytes are cached |
| `ProcBulk.ArrivesWithDataIff` | src/mercury_proc_bulk.c:59-75 | a handle arrives with its data if and only if that was wanted, size and handle with data fit the bytes left, and the handle may be sent so |
| `ProcBulk.EmbeddedDataFits` | src/mercury_proc_bulk.c:59-75 | a handle embedded with its data fits into what is left of the buffer |
| `ProcBulk.CacheIsTransparent` | src/mercury_proc_bulk.c:83-92 | whether the cache is used or not, a decoded handle of non-zero length encodes to something that decodes the same, up to local addresses |
| `ProcBulk.EncodeHandle` | src/mercury_proc_bulk.c:38-93 | on the growing buffer: size, then cached bytes or the handle serialized in place; eager exactly when asked for and it fits what is left |
| `ProcBulk.SerializeInto` | src/mercury_proc_bulk.c:88-91 | serializing where hg_proc_save_ptr points appends exactly the serialized handle, moving to a larger buffer exactly as an encoding would |
| `ProcBulk.DecodeHandle` | src/mercury_proc_bulk.c:95-120 | on a buffer that holds the field: fails exactly when the handle cannot be deserialized, otherwise gives the handle, its cached bytes and the position behind them |
| `Codecs.WordReadsBack` | src/mercury_proc.h:139-196 | a 64-bit field reads back |
| `Codecs.HandleReadsBack` | src/mercury_proc_bulk.c:29-140 | a bulk handle reads back as its remote view, with or without its data, whatever room it saw |
| `Codecs.RemoteViewMeans` | src/mercury_bulk.c:1252-1422 | what such a view is: the same length, segment sizes, memory handles and access, bound address and context, and either the data in the receiver's memory or the sender's addresses marked as virtual |
| `Codecs.RelayedReadsBack` | src/mercury_proc_bulk.c:83-120 | so does a handle that was decoded before and is sent on, from its cached bytes or serialized again |
| `Codecs.PairReadsBack` | src/mercury_macros.h:48-68 | a structure reads back if its parts do, whatever room each of its fields saw; so structures of any number of fields do, bulk handles among them |
| `Payload.WrittenPayload` | src/mercury.c:615-639 | the payload is what the fields choose to write, one after the other, and needs the extra buffer exactly when it exceeds the room in the message |
| `Payload.OverflowNeverEager` | src/mercury.c:656-706 | a payload that overflowed is never embedded as eager data |
| `Payload.OverflowIff` | src/mercury.c:656-706 | HG_OVERFLOW exactly when neither the payload nor its descriptor fits |
| `Payload.InPlace` | src/mercury.c:496-513 | a payload that fits is read back from the message |
| `Payload.DescriptorAnnounces` | src/mercury.c:847-858 | the receiver of a descriptor learns exactly the address and the used length of the extra buffer and the NA memory handle it was registered with, as a read-only region of another process |
| `Payload.PullTransferable` | src/mercury.c:857-874 | a pull into separate memory meets the transfer engine's conditions |
| `Payload.PullIsExact` | src/mercury.c:867-874 | a flat-copy pull of one segment yields exactly the sender's bytes |
| `Payload.PullGets` | src/mercury.c:867-874 | whatever the engine issues for the pull, and in whatever order it takes effect, the receiver's buffer then holds the sender's bytes |
| `Payload.EndToEnd` | src/mercury.c:427-534 | for every payload size: whenever a message is sent, the receiver gets the same structure, from the message or from memory after the engine has pulled the region that the handle in the message denotes: its address for oneself, otherwise what the sender registered for its NA memory handle |
| `Payload.AnnouncedIsInside` | src/mercury.c:858-873 | the length a consistent handle announces is the whole of its region |
| `Payload.GetExtraPayload` | src/mercury.c:796-883 | on the message area: what is pulled is the region that the handle in the message denotes, at once as a flat copy or by what the engine issues for it |
| `Payload.Describe` | src/mercury.c:675-706 | the descriptor written over the message buffer; the reset before it does not free the payload left behind |
| `Payload.SetStructIn` | src/mercury.c:538-727 | on the message buffer: the payload in place, a descriptor in its stead, or HG_OVERFLOW, as specified |
| `CoreHeader.RoundTrip16` | src/mercury_core_header.c:28-29 | 16-bit fields mean the same on hosts of either byte order |
| `CoreHeader.Wire64` | src/mercury_core_header.c:32-34 | which half of a 64-bit field travels first |
| `CoreHeader.RoundTrip64Iff` | src/mercury_core_header.c:32-37 | a 64-bit field survives if and only if both hosts have the same byte order or its halves are equal |
| `CoreHeader.IdOneIsLost` | src/mercury_core_header.c:32-37 | id 1 between hosts of different byte order arrives as 2^32 |
| `CoreHeader.RequestRoundTripIff` | src/mercury_core_header.c:178-234 | a request header survives under exactly that condition |
| `CoreHeader.ResponseRoundTrip` | src/mercury_core_header.c:239-289 | a response header survives between any two hosts, negative return codes included, and is refused exactly when the message ends inside its pad |
| `CoreHeader.VerifiedIff` | src/mercury_core_header.c:294-312 | verification accepts protocol 5 with exactly four identifier bytes: 0xD7, 0xDF, 0xF7, 0xFF |
| `CoreHeader.ProcRequest` | src/mercury_core_header.c:178-234 | encoding writes the twelve bytes and no others, or refuses a buffer that is too small |
| `CoreHeader.ProcResponse` | src/mercury_core_header.c:239-289 | encoding writes four bytes and leaves the pad, or refuses a buffer smaller than the whole header |

## Left out

- NA plugins, libfabric, poll sets, event descriptors, clocks and time-outs: NA is posts, callbacks and opaque serialized blobs.
- Weak memory and real locks: atomics are sequentially consistent, critical sections atomic or explicit.
- XDR, checksums and shared-memory routing: build options that are off here.
- `hg_atomic_queue_pop_sc`: the completion queue does not use it.
- More than one trigger thread on the completion queue: the test of the backfill count and the take are not one step, so conservation is stated for one.
- More than one progress thread in the wake-up claim: a returning waiter clears the flag all waiters share.
- Responses with MORE_DATA on the origin: the operation count grows only when the ack is sent.
- A failing `hg_core_process_output` in `hg_core_self_cb`: it keeps the reference taken before it and never completes the handle.
- Changing a handle between NA and self by `HG_Core_reset`: the role of a handle is fixed.
- Allocation failures, NA failures other than the posts named, and 64-bit wrap of offset + size.
- Address lookup, RPC registration, tag generation, class and context management, diagnostics counters.
- `hg_free_extra_payload`: when the payload left behind is freed in the end; the model says that serialization does not free it.
- Proc.HgProc.Decode: says nothing about the bytes of a field that the buffer does not hold, because the code then reads from a newly allocated buffer.
- ProcBulk.DecodeHandle: says nothing about a field that the buffer does not hold, for the same reason.
- Payload.EndToEnd: takes a structure's own callback as given, with the property that it reads back what it wrote; the module Codecs proves that property for words, bulk handles, fresh or sent on, and structures made of such.
- RpcHandle.ApplyKeepsInv: asks for `Considerate` callers and `Timely` states, without which FreedUnderForward, RepostedUnderRespond, ForwardedDuringCancel, SelfForwardedTwice and EarlyCallbackFoolsGuard happen. The model follows one call on a handle at a time, so a call begun during another is followed no further than its first step.
