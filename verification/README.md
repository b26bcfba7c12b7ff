# A model of the event library vendored with the application

The React Native application in this repository ships libevent under `ios/Pods/libevent`. That library is
where the hard logic is, and this project models six of its components in Dafny and proves what they are for.

- **Byte buffers** (`buffer.c`). A buffer is a list of chains, each a block of memory with space at both
  ends; a link marks the last chain that holds bytes. The methods take every branch of the library's code on
  that layout, and each is proved against one sequence of bytes. Two-buffer moves, pull-up, reserving and
  committing space, searching, reading lines and the counters of the callbacks are included.
- **Descriptor map, list of changes and epoll table** (`evmap.c`, `epolltable-internal.h`). Events are counted
  per descriptor, changes are coalesced between dispatches, and a table of 512 entries chooses one kernel
  operation for each. The kernel ends up with exactly the interests wanted, in every round.
- **Event queues and timeouts** (`event.c`). Flags, queues, heap, common-timeout lists and counters, through
  adding, deleting, activating, finalizing, and the steps of the loop. No timeout is lost or comes early, and
  callbacks of one priority run in the order in which they were activated. Together with the
  descriptor map: after a dispatch the kernel waits for exactly what the added events want.
- **DNS names and requests** (`evdns.c`). The compressing writer and the pointer-following reader of names
  (section 4.1.4 of RFC 1035) are inverse to each other, and what is remembered is compressed; requests in
  circular lists are conserved, sent, sent again and given up as they should be, whatever the network does.
- **Rate limits** (`bufferevent_ratelim.c`). Token buckets in 64-bit and 32-bit arithmetic, bufferevents with a
  limit of their own that are held up and refilled, and groups that suspend and resume members whose locks may
  be taken.
- **Tagged records and pairs** (`event_tagging.c`, `bufferevent_pair.c`, `bufferevent.c`). Both work on the
  buffers above, through their contracts.

`dafny verify dfyconfig.toml` checks the whole project. Modules follow the source files. Each class has the
fields that the source updates in place; `Valid` is its invariant; contracts say what the new state is.

## What came out of it

Some things are not as a caller might think; each is stated exactly.

- Reserving no bytes in two or more regions stops at an assertion exactly when the last chain is writable,
  holds the last bytes and is full (`EvBufferSpace.Reserve`, with an example in `EvBufferSpace.AbortExample`).
- One reserved region can be refused by the commit that follows, exactly in the layout `Stranded`
  (`EvBufferSpace.WriteThrough`); four calls on a new buffer lead there (`EvBufferSpace.StrandedExample`).
- A bucket above its maximum is refilled to the maximum exactly when the product passes the wrapped distance;
  otherwise what comes in is added on top (`TokenBucket.RefillMeaning`). `bufferevent_decrement_read_limit` with
  a negative number makes such a bucket (`TokenBucket.AboveMaximumExample`).
- A limit of one's own takes the place of the most to read at once instead of being the smaller of the two
  (`RateFlow.MaxSingleKept`, `RateFlow.MaxSingleExample`). Over time it is the bucket that bounds what is used
  (`RateOwn.Run`).
- A refill leaves every group suspended or with something to give out exactly when the minimum share is not
  zero (`RateFlow.ShareNotZero`); with a share of zero a group can run with a limit of zero
  (`RateFlow.ZeroShareExample`).
- A compression pointer to a place of 16384 or above leads somewhere else (`DnsEncode.PointerMeaning`). The
  library's packets are smaller.
- In `event_tagging.c` nibbles and seven-bit groups are written least significant first; the comment there
  says otherwise, and the model follows the code.
- A second given as 1000000 microseconds is not carried over and gets a common timeout list of its own; two
  durations share a list exactly under the condition in `EventRun.CarriedSame` (`EventRun.MillionExample`).
- Flushing a pair empties the output exactly when the reader has no watermark, has reached it, or all bytes fit
  below it; below it, flushing still stops at the watermark (`PairFlow.Flush`, `PairRun.FlushExample`).
- Consuming a whole record leaves what follows it exactly when its length is a signed integer or nothing follows;
  a longer one takes all bytes along, or is refused when its length is 2^32 - 1 (`TagRecords.Consume`,
  `TagRecords.ConsumeExample`).

## Model

| member | source | states |
|---|---|---|
| Chains.AllocationSize | ios/Pods/libevent/buffer.c:156-193 | the block is the smallest power-of-two multiple of the minimum that holds header and bytes, or exactly that much above half of the limit |
| Chains.NewChain | ios/Pods/libevent/buffer.c:156-193 | an empty chain, in order, with at least the requested space, and exactly the smallest block when that holds it |
| Chains.Chain.Align | ios/Pods/libevent/buffer.c:1913-1920 | moving the bytes to the start of the block keeps them and puts all space behind them |
| EvBuffers.FreeTrailingEmptyChains | ios/Pods/libevent/buffer.c:290-303 | ends the list after the last chain with bytes, loses no byte, and returns the link where the next chain goes |
| EvBuffers.ChainInsert | ios/Pods/libevent/buffer.c:308-327 | appends the bytes of a chain for every layout of empty chains and restores the invariant written at the structure |
| EvBuffers.AdvanceLastWithData | ios/Pods/libevent/buffer.c:703-721 | finds the link to the last chain with bytes again |
| EvBuffers.EvBuffer.constructor | ios/Pods/libevent/buffer.c:308-327 | a new buffer is in order, empty and not frozen |
| EvBufferBasic.Add | ios/Pods/libevent/buffer.c:1729-1824 | succeeds exactly when the end is not frozen and the length does not overflow; then the contents are the old ones and the new bytes, whatever the chains; callbacks hear of exactly that many bytes |
| EvBufferBasic.AddAll | ios/Pods/libevent/buffer.c:1751-1818 | fills the last chain if there is room, realigns it and fills it if that is worth it, and else puts what does not fit into a new chain, at least twice as large while blocks are small; appends in all three cases |
| EvBufferBasic.AddWithNewChain | ios/Pods/libevent/buffer.c:1786-1818 | fills what is left of the last chain, puts the rest into a new one, and has appended |
| EvBufferBasic.Realign | ios/Pods/libevent/buffer.c:1913-1920 | realigning a chain in place keeps contents and invariant |
| EvBufferBasic.Prepend | ios/Pods/libevent/buffer.c:1826-1910 | succeeds exactly when the start is not frozen and the length does not overflow; then the new bytes come first |
| EvBufferBasic.PrependAll | ios/Pods/libevent/buffer.c:1846-1905 | uses the space before the first chain, and a new chain for exactly what does not fit there; has prepended in every case |
| EvBufferBasic.AddReference | ios/Pods/libevent/buffer.c:2920-2958 | appends read-only bytes as a chain of their own; refused exactly when the end is frozen |
| EvBufferBasic.Drain | ios/Pods/libevent/buffer.c:1100-1166 | drops exactly the first bytes, or all; refused exactly when the start is frozen and there are bytes |
| EvBufferBasic.DrainSome | ios/Pods/libevent/buffer.c:1121-1160 | frees used-up chains, shortens the next one, and moves the link to the last data as its chain goes |
| EvBufferBasic.CopyoutFrom | ios/Pods/libevent/buffer.c:1189-1254 | the bytes from a position, or from the first one, on, as many as there are; refused exactly when the start is frozen, or when a position is given and the length passes the largest signed size behind it |
| EvBufferBasic.CopyChains | ios/Pods/libevent/buffer.c:1218-1248 | the copying loop over chains gives the flattened bytes |
| EvBufferBasic.Remove | ios/Pods/libevent/buffer.c:1169-1181 | takes the first bytes away and returns exactly them; however many are asked for, no more than there are |
| EvBufferMove.AddBuffer | ios/Pods/libevent/buffer.c:965-1009 | the destination is its bytes and then those of the source, the source is empty, both stay in order, for every layout; refused exactly when frozen |
| EvBufferMove.PrependBuffer | ios/Pods/libevent/buffer.c:1054-1098 | the source's bytes and then those of the destination |
| EvBufferMove.RemoveBuffer | ios/Pods/libevent/buffer.c:1259-1347 | moves exactly the first min(n, length) bytes, whole chains relinked and the rest copied |
| EvBufferMove.CountWholeChains | ios/Pods/libevent/buffer.c:1291-1303 | the chains that move whole, and their bytes |
| EvBufferMove.AppendChain | ios/Pods/libevent/buffer.c:888-905 | relinking all chains behind another list keeps both lists in order |
| EvBufferMove.PrependChain | ios/Pods/libevent/buffer.c:947-963 | relinking all chains before another list keeps both lists in order |
| EvBufferPullup.Pullup | ios/Pods/libevent/buffer.c:1349-1461 | never changes the bytes; on success, which is exactly when there are so many, the first chain holds them in one piece |
| EvBufferPullup.PutFront | ios/Pods/libevent/buffer.c:1409-1456 | after chains have been freed the links to the last chain and to the last data are right, including when their own chains went |
| EvBufferSpace.ExpandSinglechain | ios/Pods/libevent/buffer.c:1938-2046 | finds or makes one chain with the space, without changing the bytes, and which chain it is |
| EvBufferSpace.ExpandFast | ios/Pods/libevent/buffer.c:2050-2158 | the first n chains with space hold the bytes asked for, without changing the contents |
| EvBufferSpace.CountSpace | ios/Pods/libevent/buffer.c:2069-2093 | the counting loop: the space found is the space there is in the chains it looked at |
| EvBufferSpace.ReadSetupVecs | ios/Pods/libevent/buffer.c:2224-2260 | the regions are the space of consecutive chains and hold what was asked for when there is so much |
| EvBufferSpace.Reserve | ios/Pods/libevent/buffer.c:670-701 | contents stay, the regions hold at least the size asked for; when it is refused, and the one case in which it stops at an assertion, exactly |
| EvBufferSpace.Commit | ios/Pods/libevent/buffer.c:723-791 | commits exactly when the regions are the space of consecutive chains and within it; then exactly the bytes written there are appended, in order; otherwise nothing changes |
| EvBufferSpace.ReservedCommittable | ios/Pods/libevent/buffer.c:723-791 | regions reserved two or more at a time can be committed, shortened in any way |
| EvBufferSpace.CheckVecs | ios/Pods/libevent/buffer.c:752-763 | the check of all regions before any is committed, in both directions |
| EvBufferSpace.WriteRegion | ios/Pods/libevent/buffer.c:670-701 | writing into a region changes no stored byte |
| EvBufferSpace.WriteThrough | ios/Pods/libevent/buffer.c:670-791 | reserving one region, writing and committing appends the bytes, except exactly in the layout in which the commit looks for another chain |
| EvBufferSpace.ReadInto | ios/Pods/libevent/buffer.c:670-791 | reserving two or more regions, writing and committing appends the bytes, always, unless the end is frozen; callbacks hear of exactly that many |
| EvBufferSpace.StrandedExample | ios/Pods/libevent/buffer.c:1990-2006 | from a new buffer, four calls lead to a reservation whose commit is refused |
| EvBufferSpace.StrandedLayout | ios/Pods/libevent/buffer.c:2050-2158 | after adding and two reservations that are not used, a nearly full chain and two empty ones of the smallest size |
| EvBufferSpace.AbortExample | ios/Pods/libevent/buffer.c:2224-2260 | from a new buffer, two calls lead to the failing assertion |
| EvBufferSearch.PtrSet | ios/Pods/libevent/buffer.c:2622-2672 | a position denotes its chain and its place in it; refused exactly when out of range |
| EvBufferSearch.PtrMatches | ios/Pods/libevent/buffer.c:2678-2712 | whether the pattern stands at a position, across chain boundaries |
| EvBufferSearch.SearchRange | ios/Pods/libevent/buffer.c:2720-2782 | the least position at or after the start where the pattern occurs and ends in range; not found exactly when there is none; chain and offset denote it |
| EvBufferLines.FindEolChar | ios/Pods/libevent/buffer.c:1495-1520 | the scan in pieces of 128 bytes finds the least index of CR or LF |
| EvBufferLines.StrChr | ios/Pods/libevent/buffer.c:1473-1493 | the least position of a byte |
| EvBufferLines.FindEol | ios/Pods/libevent/buffer.c:1522-1542 | the least position of CR or LF over all chains |
| EvBufferLines.StrSpn | ios/Pods/libevent/buffer.c:1544-1581 | the longest run of the given bytes |
| EvBufferLines.PtrSubtract | ios/Pods/libevent/buffer.c:2602-2620 | going back in a buffer denotes the earlier position |
| EvBufferLines.SearchEol | ios/Pods/libevent/buffer.c:1596-1684 | for each style the first terminator and its length, or none exactly when there is none |
| EvBufferLines.EolUnique | ios/Pods/libevent/buffer.c:1596-1684 | a style, some bytes and a start determine the terminator |
| EvBufferLines.Readln | ios/Pods/libevent/buffer.c:1686-1723 | contents are line, terminator and rest at the first terminator; the rest stays |
| EvBufferLines.LfLinesRejoin | ios/Pods/libevent/buffer.c:1686-1723 | lines joined with LF, and the bytes left over, are the input |
| EvBufferLines.LfLinesOfJoin | ios/Pods/libevent/buffer.c:1686-1723 | lines without LF that are joined with LF are read back as they were |
| EvBufferLines.ReadlnIsLfLine | ios/Pods/libevent/buffer.c:1686-1723 | reading a line is taking the first of these lines |
| EvBufferLines.ReadLines | ios/Pods/libevent/buffer.c:1686-1723 | reading lines until there are no more gives exactly these lines, and leaves the bytes behind the last one |
| EvBufferRun.Run | ios/Pods/libevent/buffer.c:290-2169 | every run of calls on two buffers, with reservations that are written and committed, lines, callbacks added on the way, and moves from one to the other, does to their bytes what the calls do to two sequences and keeps both invariants; the reports of the callbacks add up to the change of length |
| EvBufferRun.Do | ios/Pods/libevent/buffer.c:455-2169 | one call on one buffer: its bytes afterwards, whatever the chains, the space that was asked for, and callbacks that have been told everything |
| EvBufferRun.DoMove | ios/Pods/libevent/buffer.c:965-1347 | one move: the bytes of both buffers afterwards |
| EvBufferRun.StepsMore | ios/Pods/libevent/buffer.c:290-2169 | what a run does to two buffers is what its calls do, one after the other |
| EvBufferRun.AfterLineIs | ios/Pods/libevent/buffer.c:1686-1723 | what is left behind the first line is determined by the bytes and the style |
| EvBufferRun.AddCb | ios/Pods/libevent/buffer.c:3334-3346 | from here on the callback's reports start at the length of this moment; bytes stay |
| CallbackCounters.ReportsAddUp | ios/Pods/libevent/buffer.c:455-511 | successive reports telescope: the sizes before, the added and the deleted bytes add up to the current size |
| CallbackCounters.Counters.Run | ios/Pods/libevent/buffer.c:455-511 | one report covers everything since the last one, and its size, added and deleted bytes agree with the length |
| CallbackCounters.Counters.Invoke | ios/Pods/libevent/buffer.c:513-531 | a buffer that is not deferred reports at once, a deferred one keeps counting |
| EpollTable.TableMeaning | ios/Pods/libevent/epolltable-internal.h:40-130 | the 512-entry table means what its rule says: for every sensible change the operation is accepted by a kernel with the old interests and leaves the wanted ones |
| EpollTable.RowsOk | ios/Pods/libevent/epolltable-internal.h:136-1164 | every row of the table, in each of its eight blocks |
| EpollTable.IndexParts | ios/Pods/libevent/epolltable-internal.h:123-130 | the index names the old interests and the three changes without overlap |
| EvMap.MakeSpace | ios/Pods/libevent/evmap.c:204-232 | the table grows to hold the descriptor, to no more than twice its number, and the call fails exactly for descriptors from 2^27 on; nothing else changes |
| EvMap.IoAdd | ios/Pods/libevent/evmap.c:272-349 | the event is added and counted; it fails exactly when a count is full or the descriptor is 2^27 or more; the backend is told exactly when the wanted interests change |
| EvMap.IoDel | ios/Pods/libevent/evmap.c:353-417 | the event is taken off and the counts follow; the backend is told exactly when the wanted interests change |
| EvMap.CountRemove | ios/Pods/libevent/evmap.c:353-417 | taking an event off the list takes its interests off the counts |
| EvMap.CountPositive | ios/Pods/libevent/evmap.c:272-417 | a count is positive exactly when some event has the interest |
| EvMap.GetOrConstruct | ios/Pods/libevent/evmap.c:834-863 | one change per descriptor, with links both ways |
| EvMap.ChangelistAdd | ios/Pods/libevent/evmap.c:865-893 | the coalesced change, made from what the kernel has, now also adds these interests |
| EvMap.ChangelistDel | ios/Pods/libevent/evmap.c:895-946 | the coalesced change now also takes these interests away; one that was only queued is dropped |
| EvMap.PutChange | ios/Pods/libevent/evmap.c:865-946 | the coalesced change and a single change that goes through the table at once lead to the same interests |
| EvMap.RemoveAll | ios/Pods/libevent/evmap.c:778-797 | empties the list of changes and every link to it, once the kernel has what is wanted |
| EvMap.ApplyChanges | ios/Pods/libevent/evmap.c:834-946 | all changes, each through the table, are made by the kernel, which would refuse any other, and lead from its old sets to the wanted ones |
| EvMap.EpollCtl | ios/Pods/libevent/epolltable-internal.h:40-130 | the kernel may be asked only for what it accepts: adding new descriptors, changing and removing known ones; its set is then what the operation says |
| EvMap.Dispatch | ios/Pods/libevent/evmap.c:751-797 | after a dispatch the kernel waits on every descriptor for exactly the interests some event has, the same as a kernel that has had every change made through the table at once |
| EvMap.ReinitOne | ios/Pods/libevent/evmap.c:606-634 | queues everything wanted on one descriptor for a kernel that knows nothing |
| EvMap.Reinit | ios/Pods/libevent/evmap.c:652-664 | after a fork the queued changes are right for an empty kernel, and no event is lost |
| EvMapRun.Run | ios/Pods/libevent/evmap.c:272-946 | over any run of additions, deletions, dispatches and forks every call answers as it should, the map holds exactly the events that were added, not refused and not deleted, after a dispatch the kernel's sets are exactly theirs, and after a fork it knows nothing |
| EvMapRun.WaitingStep | ios/Pods/libevent/evmap.c:272-417 | one more call changes the expected events of a descriptor as it should |
| EvMapRun.Delete | ios/Pods/libevent/evmap.c:353-417 | an event that is in the map leaves it, whichever place it had, and one that is not changes nothing |
| EventQueues.QueuesStep | ios/Pods/libevent/event.c:3223-3436 | when one event changes, and each list by that event at most, flags and lists agree again, and every common list stays sorted |
| EventQueues.ActiveChange | ios/Pods/libevent/event.c:3235-3250 | only the queue of the event's own priority changes |
| EventQueues.InTimeStep | ios/Pods/libevent/event.c:1449-1456 | a list stays watched while its head does not become earlier and its event is untouched |
| EventQueues.TotalStep | ios/Pods/libevent/event.c:3209-3221 | the number of lists that non-internal events are on follows the change of one event |
| EventQueues.EventBase.constructor | ios/Pods/libevent/event.c:1246-1276 | a new base is in order |
| EventLists.InsertInserted | ios/Pods/libevent/event.c:3360-3374 | flag, map and counter together |
| EventLists.RemoveInserted | ios/Pods/libevent/event.c:3223-3234 | flag, map and counter together |
| EventLists.InsertActive | ios/Pods/libevent/event.c:3376-3395 | once, at the tail of the queue of the event's priority, counted |
| EventLists.RemoveActive | ios/Pods/libevent/event.c:3235-3250 | off the queue of its priority, counted |
| EventLists.InsertLater | ios/Pods/libevent/event.c:3397-3412 | never while it is active, at the tail, counted |
| EventLists.RemoveLater | ios/Pods/libevent/event.c:3251-3265 | off the queue, counted |
| EventTimeouts.FindPosition | ios/Pods/libevent/event.c:3330-3358 | the place behind every event that is not later and before all that are |
| EventTimeouts.InsertTimeout | ios/Pods/libevent/event.c:3414-3436 | into the heap or, in order, into its common list; only a new head can leave that list unwatched |
| EventTimeouts.RemoveTimeout | ios/Pods/libevent/event.c:3266-3286 | out of the heap or the common list, which stays sorted and watched |
| EventOps.EventAdd | ios/Pods/libevent/event.c:2596-2766 | every field of the event afterwards: it is in the map unless it waits on a queue, its deadline is an interval after now or the time given, a timeout that had fired but not run is taken back, a persistent event remembers its interval; the queues keep their order; no other event changes but the one that stands for its list; fails exactly for finalizing events and refused descriptors |
| EventOps.Schedule | ios/Pods/libevent/event.c:1449-1456 | the event of a common list is in the heap in time for the list's head |
| EventOps.ClearTimeout | ios/Pods/libevent/event.c:2683-2708 | an earlier timeout, and an activation by it, are taken back |
| EventOps.EventDel | ios/Pods/libevent/event.c:2809-2898 | every field: off every list, the queues of the others in order, or nothing at all for a finalizing event |
| EventOps.EventActive | ios/Pods/libevent/event.c:2918-2967 | active with the reasons joined, out of the later queue, at the tail of its queue; nothing for a finalizing event |
| EventOps.CallbackActivate | ios/Pods/libevent/event.c:3005-3034 | the same for any callback, and whether it was on no queue before |
| EventLoop.Fire | ios/Pods/libevent/event.c:3193-3203 | every field: off all lists and active with the timeout as its only reason, at the end of its queue, in one step |
| EventLoop.TimeoutProcess | ios/Pods/libevent/event.c:3180-3204 | ends; no deadline in the heap has passed, exactly the events whose deadline had passed have fired, the earliest first, their callbacks behind all that waited; no other event changes and no other callback loses its place |
| EventLoop.FiredNext | ios/Pods/libevent/event.c:3193-3203 | one more event that fires comes behind those that wait and those that fired before it, whose order stays |
| EventLoop.NothingLost | ios/Pods/libevent/event.c:1461-1482 | after that, an event whose deadline has passed and that has not fired is on a common list whose callback is waiting to run |
| EventLoop.FireExpired | ios/Pods/libevent/event.c:1461-1478 | a prefix of the common list fires, in its order, the rest is not due |
| EventLoop.CommonTimeoutCallback | ios/Pods/libevent/event.c:1461-1482 | every expired event of the list fires, and the list is in time again when the callback ends |
| EventLoop.TakeActive | ios/Pods/libevent/event.c:1641-1667 | takes the first event off its queue; a persistent or finalizing one stays added, any other is deleted; all lists stay in agreement |
| EventLoop.NextRun | ios/Pods/libevent/event.c:1575-1607 | one interval after it was scheduled for if that is not over yet and it ran for its timeout, and else one interval after now; never before now |
| EventLoop.PersistClosure | ios/Pods/libevent/event.c:1561-1612 | a persistent event is added again for that time, with the tag of its list |
| EventFinal.EventActiveLater | ios/Pods/libevent/event.c:2977-2992 | to the later queue unless it is on a queue; reasons joined or set |
| EventFinal.CallbackActivateLater | ios/Pods/libevent/event.c:3036-3047 | the same for any callback |
| EventFinal.CallbackCancel | ios/Pods/libevent/event.c:3068-3096 | every field: off every queue, or nothing for a finalizing callback |
| EventFinal.PrioritySet | ios/Pods/libevent/event.c:2355-2368 | the priority changes exactly when the event is not active and the number is in range |
| EventFinal.Finalize | ios/Pods/libevent/event.c:2246-2258 | every field: the event is on the queue of its priority only, at its end, to run its finalizer, and can not be used again |
| EventFinal.CallbackFinalize | ios/Pods/libevent/event.c:2288-2303 | the same for any callback |
| EventFinal.FinalizeMany | ios/Pods/libevent/event.c:2316-2348 | all callbacks end; exactly one of them runs the finalizer: the one that is running, if it is among them, and else the first |
| EventRun.MakeLaterActive | ios/Pods/libevent/event.c:3438-3451 | each waiting event goes to the end of the queue of its priority, in order, and no other event changes; the counters stay right |
| EventRun.Assign | ios/Pods/libevent/event.c:2112-2161 | a new event in the middle priority, on no list, persistent and internal as asked for, with the closure for a signal, a persistent event or a plain one; signals exclude other interests |
| EventRun.InitCommonTimeout | ios/Pods/libevent/event.c:1486-1558 | the same number for durations that are the same once microseconds are carried over, a new list for a new one, none when there are 256 |
| EventRun.CarriedSame | ios/Pods/libevent/event.c:1494-1501 | two durations get the same list exactly when they are as long, and both are given with a million microseconds or none is; asking again with the list's own duration leads to the same list exactly when it was not given so |
| EventRun.MillionExample | ios/Pods/libevent/event.c:1494-1501 | a second given as a million microseconds is another duration than one second |
| EventRun.ValidMeansOk | ios/Pods/libevent/event.c:3963-4020 | the checks that the library's own integrity function makes of timeouts and queues hold whenever the invariant does; those of the descriptor map and of the order inside the heap are not among them |
| EventRun.DoNew | ios/Pods/libevent/event.c:2112-2766 | what a new event, a new common timeout and an addition make of the base |
| EventRun.DoCall | ios/Pods/libevent/event.c:2596-3096 | what each call makes of the base: its event, all other events, and the order of the queues |
| EventRun.DoLoop | ios/Pods/libevent/event.c:1461-3451 | what each step of the loop makes of the base: events, who has fired in which order, and the order of the queues |
| EventRun.PendingStep | ios/Pods/libevent/event.c:2596-3451 | a step that is not about an event leaves its timeout pending, or fires it and not before its time |
| EventRun.PendingUntilFired | ios/Pods/libevent/event.c:1461-3451 | over any part of a run an event with a timeout to which nothing is done keeps it, with its deadline, until it fires, and it does not fire before |
| EventRun.Run | ios/Pods/libevent/event.c:2596-3451 | whatever callers and loop do, in any order: every operation makes of the base what it should, flags and lists agree, both counters are right, and every non-empty common list is watched |
| EventLaws.WaitsItsTime | ios/Pods/libevent/event.c:2715-2724 | over any part of a run: an event that is added with an interval keeps its timeout, for the deadline now plus interval, as long as no step of the loop comes with a later time and nothing is done to it; so it does not fire before |
| EventLaws.FiresInTime | ios/Pods/libevent/event.c:3180-3204 | when the heap is processed a pending event fires exactly if its time has come, and is then active for its timeout, on the queue of its priority, and added no more |
| EventLaws.AssignedStays | ios/Pods/libevent/event.c:2112-2161 | over any run an event stays persistent or not, internal or not, with the closure it was assigned, until it is finalized |
| EventLaws.TakenByKind | ios/Pods/libevent/event.c:1641-1653 | when its callback runs, an event that was assigned to be persistent stays added with its timeout, and one that was not loses both |
| EventLaws.OrderStep | ios/Pods/libevent/event.c:2596-3451 | a step that disturbs neither of two waiting callbacks leaves them in their order |
| EventLaws.FirstComeFirstServed | ios/Pods/libevent/event.c:1620-1667 | over any part of a run callbacks of one priority run in the order in which they were activated |
| EventMap.Link | ios/Pods/libevent/event.c:2640-2660 | the event is in the map of descriptors exactly when the map does not refuse it; all others stay as they were |
| EventMap.Unlink | ios/Pods/libevent/event.c:2855-2875 | the event is not in the map of descriptors any more; all others stay as they were |
| EventMap.AddWithMap | ios/Pods/libevent/event.c:2596-2766 | adding with the answer that the map gives, for plain and for persistent additions: flags and map agree, and the answer is the one for the events that are flagged on the descriptor |
| EventMap.SameAnswer | ios/Pods/libevent/evmap.c:272-349 | the list of a descriptor in the map and the events flagged on it give the same answer, full counts included |
| EventMap.Recounted | ios/Pods/libevent/evmap.c:289-317 | lists of the same events, in whatever order, have the same three counts |
| EventMap.WaitersAre | ios/Pods/libevent/evmap.c:272-349 | exactly the flagged events of a descriptor, once each |
| EventMap.Do | ios/Pods/libevent/event.c:2596-3451 | one call: what it does to the queues, what each event waits for, and its answer |
| EventMap.OthersFall | ios/Pods/libevent/event.c:2809-2898 | no step gives the flag to an event that is not added |
| EventMap.UnlinkAll | ios/Pods/libevent/event.c:2855-2875 | exactly the events that have lost their flag leave the map |
| EventMap.NewEvent | ios/Pods/libevent/event.c:2112-2161 | a new event for a descriptor, which is not in the map |
| EventMap.Agreement | ios/Pods/libevent/evmap.c:751-797 | the kernel waits on a descriptor for an interest exactly when some event that is flagged as added wants it |
| EventMap.Run | ios/Pods/libevent/event.c:2596-3451 | over any run of calls, steps of the loop and dispatches queues, flags, map and kernel agree; each addition, also that of a persistent event, is answered by what is flagged on its descriptor at that moment: refused exactly for a full count or a descriptor of 2^27 or more |
| DnsNames.NameParse | ios/Pods/libevent/evdns.c:976-1030 | ends on every packet; equal to the function that follows labels and pointers; on failure the index stays |
| DnsNames.ParseSpelled | ios/Pods/libevent/evdns.c:976-1030 | the parser reads what the bytes spell by section 4.1.4 of RFC 1035, exactly when it fits, and finds the end of the name |
| DnsNames.JoinLabels | ios/Pods/libevent/evdns.c:1011-1019 | labels with dots between them are the name |
| DnsNames.SpellsMore | ios/Pods/libevent/evdns.c:976-1030 | bytes behind a name do not matter |
| DnsEncode.LabelTable.GetPos | ios/Pods/libevent/evdns.c:1574-1583 | the place of a name in the table, or -1 exactly when it is not there |
| DnsEncode.LabelTable.Add | ios/Pods/libevent/evdns.c:1586-1601 | remembers a name unless 128 are there |
| DnsEncode.PointerMeaning | ios/Pods/libevent/evdns.c:1641-1644 | a written pointer leads to its place exactly when fourteen bits can hold the place |
| DnsEncode.NameToLabels | ios/Pods/libevent/evdns.c:1614-1678 | for every name: the bytes spell it and end exactly where its size says, which is that of its labels up to the first rest that was remembered and a pointer, or of all labels and a zero; every rest before that is remembered as long as there is room; too long a label and lack of space are the only errors, and exactly when |
| DnsEncode.PutLabel | ios/Pods/libevent/evdns.c:1650-1669 | writes one label and remembers the rest of the name that starts with it, if there is room |
| DnsEncode.FoundBefore | ios/Pods/libevent/evdns.c:1640-1644 | a rest of the name is found exactly if it was remembered before this name was begun |
| DnsEncode.ClosedAfter | ios/Pods/libevent/evdns.c:1614-1678 | with a name every rest of it that starts with a label is remembered, and writing names keeps it so |
| DnsEncode.RestShared | ios/Pods/libevent/evdns.c:1640-1661 | a name that ends, from a label on, as one that was written takes its own bytes and a pointer at the most; the same name again is a pointer |
| DnsEncode.FinishPointer | ios/Pods/libevent/evdns.c:1640-1644 | a name that ends in a pointer is spelled, and so is everything remembered on the way |
| DnsEncode.FinishZero | ios/Pods/libevent/evdns.c:1672-1674 | a name that ends in a zero is spelled, also when it ends in a dot |
| DnsRoundTrip.ReadBack | ios/Pods/libevent/evdns.c:976-1678 | what has been written is read, by a reader with enough space and by no other, whatever follows |
| DnsRoundTrip.ReadAll | ios/Pods/libevent/evdns.c:976-1678 | a packet that holds names and data is read name by name to its end |
| DnsRoundTrip.WriteItems | ios/Pods/libevent/evdns.c:1906-1985 | names written through one table, with data between them, are all there; the end and the table are exactly what the names make of them, and it fails exactly for a name that can not be sent or when that end is behind the space |
| DnsRoundTrip.TwiceWritten | ios/Pods/libevent/evdns.c:1640-1661 | a name that is written a second time takes two bytes |
| DnsRoundTrip.WriteThenRead | ios/Pods/libevent/evdns.c:976-1985 | any list of names, written and read back, is the same list, and the reader ends where the writer did |
| DnsLinks.InsertLinked | ios/Pods/libevent/evdns.c:2754-2768 | the links make the circle with the request at its end |
| DnsLinks.RemoveLinked | ios/Pods/libevent/evdns.c:2716-2751 | the links make the circle without the request, whichever place it had |
| DnsServers.Insert | ios/Pods/libevent/evdns.c:2754-2768 | a request joins the end of one list, and no other list changes |
| DnsServers.Remove | ios/Pods/libevent/evdns.c:2716-2751 | a request leaves its list, and no other list changes |
| DnsServers.Find | ios/Pods/libevent/evdns.c:472-487 | a request in flight with this id, or none exactly when there is none |
| DnsServers.NameserverPick | ios/Pods/libevent/evdns.c:1349-1382 | the next good server round the circle, or just the next one when none is good, and where the circle goes on; the assertion inside can not fail |
| DnsServers.SwapNs | ios/Pods/libevent/evdns.c:548-557 | one counter goes down, one goes up, both are right, and nothing else of the servers changes |
| DnsRequests.FreeId | ios/Pods/libevent/evdns.c:1331-1344 | as long as less than 65535 requests are in flight, some id is free |
| DnsRequests.TransactionIdPick | ios/Pods/libevent/evdns.c:1331-1344 | an id that is not in flight and not 0xffff |
| DnsRequests.NameserverFailed | ios/Pods/libevent/evdns.c:561-619 | counted once, with its failure; if good servers are left, exactly the requests in flight that were not sent to it go to them, one after the other round the circle, and nothing else changes |
| DnsRequests.MoveAll | ios/Pods/libevent/evdns.c:592-606 | the walk through all buckets moves exactly those requests, in their order, each to the server that comes next |
| DnsRequests.FailedMeans | ios/Pods/libevent/evdns.c:561-619 | what a failure means request by request and server by server |
| DnsRequests.NameserverUp | ios/Pods/libevent/evdns.c:621-640 | up again with its failures and timeouts forgotten, counted once; nothing for one that is up |
| DnsRequests.Transmit | ios/Pods/libevent/evdns.c:2253-2303 | for each outcome of the network: sent and counted, marked to be sent later, or counted with its server failed; nothing else changes |
| DnsFlow.Enter | ios/Pods/libevent/evdns.c:2857-2870 | the request is at the end of the list it belongs to, and counted there |
| DnsFlow.Leave | ios/Pods/libevent/evdns.c:652-679 | the request is off its list, and not counted any more |
| DnsFlow.Promote | ios/Pods/libevent/evdns.c:750-768 | the first waiting request goes in flight with a free id |
| DnsFlow.TransmitAll | ios/Pods/libevent/evdns.c:2361-2381 | exactly the requests in flight that are marked are handed to the network, once each |
| DnsFlow.PumpedMore | ios/Pods/libevent/evdns.c:750-772 | one more round: what it does to the request that goes out, to those in flight and to all others |
| DnsFlow.Pump | ios/Pods/libevent/evdns.c:746-774 | waiting requests go out in their order until enough are in flight, none waits or there is no server; each has an id, the server that comes next, and has been sent if the network took it in any round; those in flight that were marked are sent as well, and no other request changes |
| DnsFlow.RequestNew | ios/Pods/libevent/evdns.c:2780-2855 | a new request that has not been sent; an id and the server that comes next exactly when there is room and a server |
| DnsFlow.Submit | ios/Pods/libevent/evdns.c:2857-2875 | on the list it belongs to, exactly one counter higher, and handed to the network exactly if it has a server |
| DnsFlow.Finish | ios/Pods/libevent/evdns.c:652-710 | the request is gone, those that waited first take its place and are sent, and no other is lost or changed |
| DnsFlow.Cancel | ios/Pods/libevent/evdns.c:2878-2911 | the same from either list |
| DnsFlow.Reissue | ios/Pods/libevent/evdns.c:718-739 | to the server that comes next, to be sent again from the beginning; nothing changes if that is the same server |
| DnsFlow.SendProbe | ios/Pods/libevent/evdns.c:2331-2356 | forced in flight to this server, with a free id, and handed to the network, also above the limit |
| DnsResize.SetMaxInflight | ios/Pods/libevent/evdns.c:3425-3454 | every request is in its new bucket, the waiting list is untouched, and requests and ids are the same |
| DnsResize.CountersMeaning | ios/Pods/libevent/evdns.c:548-774 | the two counters are the numbers of requests in flight and of requests that wait |
| DnsRun.TimeoutCallback | ios/Pods/libevent/evdns.c:2176-2212 | given up exactly after enough tries, with its server failed; before that it goes to the server that comes next, is counted as sent unless the network takes it later, and one more timeout is counted there, or the server has failed if there were too many |
| DnsRun.SendAgain | ios/Pods/libevent/evdns.c:2194-2208 | every field of the request and of all servers after it has been sent again |
| DnsRun.TimedOut | ios/Pods/libevent/evdns.c:2203-2208 | one more timeout of this server, or none and the server failed when there are too many |
| DnsRun.GiveUp | ios/Pods/libevent/evdns.c:2183-2192 | the request is gone, its server has failed, and those that waited have gone out |
| DnsRun.Answer | ios/Pods/libevent/evdns.c:884-974 | the request with this id, and only it, is done, its server is up with its failures forgotten, and those that wait go out in their order |
| DnsRun.DoEnd | ios/Pods/libevent/evdns.c:652-974 | which request an answer, a timeout or a cancel ends, and what that does to all requests, to those that wait and to the servers |
| DnsRun.DoOther | ios/Pods/libevent/evdns.c:548-3454 | what all other steps do to requests and servers; none of them ends a request |
| DnsRun.ConservedStep | ios/Pods/libevent/evdns.c:472-3454 | a step keeps requests created, ended and counted in balance |
| DnsRun.Conserved | ios/Pods/libevent/evdns.c:472-3454 | over any run the requests on a list are exactly those that were created and have not ended, the counters add up to them, and unless the limit was changed none waits that could be sent |
| DnsRun.CountStep | ios/Pods/libevent/evdns.c:2176-2303 | no step but a reissue takes back that a request was sent, and sending it again after a timeout counts once more |
| DnsRun.TriesBounded | ios/Pods/libevent/evdns.c:2176-2303 | over any part of a run without reissue a request that is still there has been sent again at most as often as it may be |
| DnsRun.Run | ios/Pods/libevent/evdns.c:472-3454 | over any run: the queued requests are exactly those submitted and not ended, both counters, each server's counter and the number of good servers are right, and each step has done what it should |
| TokenBucket.CfgNew | ios/Pods/libevent/bufferevent_ratelim.c:142-173 | accepted exactly when rates are at least one, at most the bursts, and all fit a signed word; it holds these rates, and the length of a tick |
| TokenBucket.RefillMeaning | ios/Pods/libevent/bufferevent_ratelim.c:90-105 | in 64-bit words the division form equals min(maximum, limit + n * rate) exactly when the limit is not above the maximum or the product is large enough; below it nothing overflows, and otherwise what comes in is added on top |
| TokenBucket.AboveMaximumExample | ios/Pods/libevent/bufferevent_ratelim.c:90-105 | a full bucket refilled by hand by one is not taken back to its maximum at the next tick |
| TokenBucket.DecrementLimit | ios/Pods/libevent/bufferevent_ratelim.c:969-1021 | the limit changes by any number, and whether it is suspended follows the sign of the limit |
| TokenBucket.Update | ios/Pods/libevent/bufferevent_ratelim.c:73-111 | both limits become that minimum, or what comes in is added to a limit above its maximum; nothing happens when no time has passed or time has gone back |
| TokenBucket.Init | ios/Pods/libevent/bufferevent_ratelim.c:49-71 | the rate at the start; only clipped when reinitialized |
| TokenBucket.UpdateTwice | ios/Pods/libevent/bufferevent_ratelim.c:73-111 | k and then m ticks are k + m ticks, also across the wrap of the tick number |
| TokenBucket.TicksOfTimes | ios/Pods/libevent/bufferevent_ratelim.c:126-140 | the difference modulo 2^32 of the tick numbers of two times is the true number of ticks between them |
| TokenBucket.SpentBound | ios/Pods/libevent/bufferevent_ratelim.c:73-111 | a sequence of ticks and of spending at most what is there spends no more than maximum + T * rate in T ticks; `RateOwn.UsedBound` is the same for runs of the update |
| RateGroup.Suspend | ios/Pods/libevent/bufferevent_ratelim.c:349-371 | the group is suspended, nothing is pending, and exactly the members that could be locked are suspended as well |
| RateGroup.Unsuspend | ios/Pods/libevent/bufferevent_ratelim.c:487-504 | exactly the members that could be locked are resumed, and something is pending exactly when there are others |
| RateGroup.UnsuspendSome | ios/Pods/libevent/bufferevent_ratelim.c:470-485 | a stretch of the members in random order |
| RateFlow.GroupShare | ios/Pods/libevent/bufferevent_ratelim.c:232-248 | the limit's part for one member, rounded down, but no less than the minimum share, or nothing while suspended, which the member then knows |
| RateFlow.GivenMeans | ios/Pods/libevent/bufferevent_ratelim.c:232-258 | a member gets what it wishes, or all of its share and no more |
| RateFlow.MaxSingleKept | ios/Pods/libevent/bufferevent_ratelim.c:197-258 | when the most to read at once is kept, exactly: a limit of one's own takes its place |
| RateFlow.MaxSingleExample | ios/Pods/libevent/bufferevent_ratelim.c:197-258 | 16384 at once and a limit of 20000: 20000 at once |
| RateFlow.Decrement | ios/Pods/libevent/bufferevent_ratelim.c:292-303 | afterwards the group is suspended exactly when nothing is left, and then whoever can be locked is suspended as well |
| RateFlow.Transfer | ios/Pods/libevent/bufferevent_ratelim.c:197-308 | a member gets its share or less, nothing while the group is suspended; the limit of a running group falls no lower than minus the minimum share |
| RateFlow.RefillGroup | ios/Pods/libevent/bufferevent_ratelim.c:528-557 | resumes exactly when the minimum share is there; whoever can be locked is resumed, and something is pending exactly when there are others; leaves the group running with nothing to give out exactly when share and limit are zero |
| RateFlow.ShareNotZero | ios/Pods/libevent/bufferevent_ratelim.c:528-557 | every refill of every group leaves it suspended or with something to give out, exactly when the minimum share is not zero |
| RateFlow.ZeroShareExample | ios/Pods/libevent/bufferevent_ratelim.c:528-557 | a group with share zero that runs with limit zero |
| RateFlow.SetMinShare | ios/Pods/libevent/bufferevent_ratelim.c:702-721 | the share, or the smaller of the rates; zero as well; refused exactly when it is no signed size |
| RateFlow.SetCfg | ios/Pods/libevent/bufferevent_ratelim.c:671-700 | limits are clipped and the share adjusted |
| RateFlow.Join | ios/Pods/libevent/bufferevent_ratelim.c:734-765 | a new member remembers, under its own lock, whether it has to be suspended |
| RateFlow.FinishJoin | ios/Pods/libevent/bufferevent_ratelim.c:767-775 | and does it, without breaking the protocol if the group has resumed since |
| RateFlow.Leave | ios/Pods/libevent/bufferevent_ratelim.c:786-807 | the member is off the list and the count, and is resumed exactly when that is asked for |
| RateFlow.UsedBound | ios/Pods/libevent/bufferevent_ratelim.c:197-557 | whatever the operations: the limit stays at or above one minus the minimum share (at or above zero if that is zero), a running group has a positive limit if that share is not zero, and at most maximum + T * rate + min_share - 1 bytes are used in T ticks |
| RateFlow.TicksAreTrue | ios/Pods/libevent/bufferevent_ratelim.c:73-111 | for refills with the tick numbers of a clock that does not go back, also across the wrap, T is the true number of ticks from the start to the last refill |
| RateFlow.StandingsMore | ios/Pods/libevent/bufferevent_ratelim.c:197-807 | what a run does to a group is what its operations do, one after the other |
| RateFlow.Run | ios/Pods/libevent/bufferevent_ratelim.c:197-807 | a run with any configured share does to the group exactly what the operations say, whatever locks are taken, so that these bounds hold for the ticks that went by; pending means not suspended, and nothing pending means nobody is held up |
| RateOwn.GetMax | ios/Pods/libevent/bufferevent_ratelim.c:197-230 | what may be used is what the updated bucket holds, whatever may be used at once |
| RateOwn.Decrement | ios/Pods/libevent/bufferevent_ratelim.c:272-290 | the bufferevent is held up exactly when its bucket has nothing left, and then waits for a refill; the refill is called off when neither direction waits |
| RateOwn.Transfer | ios/Pods/libevent/bufferevent_ratelim.c:197-290 | as much as is wished, or all that the bucket holds, and nothing while held up; held up afterwards exactly when the bucket is empty |
| RateOwn.RefillCallback | ios/Pods/libevent/bufferevent_ratelim.c:394-441 | afterwards a direction is held up exactly when it was before and its bucket has nothing; the refill is added again exactly when a direction is held up |
| RateOwn.NextStep | ios/Pods/libevent/bufferevent_ratelim.c:73-290 | one operation, for one direction: the bucket is refilled for the ticks that went by and at most its contents are used |
| RateOwn.RunSteps | ios/Pods/libevent/bufferevent_ratelim.c:73-441 | a run is, for the bucket of a direction, a sequence of ticks and of spending at most what is there |
| RateOwn.UsedBound | ios/Pods/libevent/bufferevent_ratelim.c:73-441 | in T ticks at most maximum + T * rate bytes are used, whatever the tick numbers, time going back included |
| RateOwn.HeldFor | ios/Pods/libevent/bufferevent_ratelim.c:73-441 | while a direction is held up its bucket gets the rate for each tick that goes by |
| RateOwn.ResumedInTime | ios/Pods/libevent/bufferevent_ratelim.c:394-441 | over any run: when the ticks that go by bring a bucket above zero, its direction has been resumed by the refill that follows |
| RateOwn.TicksAreTrue | ios/Pods/libevent/bufferevent_ratelim.c:73-140 | for the tick numbers of a clock that does not go back, also across the wrap, T is the true number of ticks |
| RateOwn.AfterLast | ios/Pods/libevent/bufferevent_ratelim.c:73-441 | what a run does is what its operations do, one after the other |
| RateOwn.Run | ios/Pods/libevent/bufferevent_ratelim.c:73-441 | a run of transfers and refills is what the operations say and keeps within this bound in both directions; who has nothing left is held up, and who is held up has a refill to wait for |
| TagCodec.EncodeInt | ios/Pods/libevent/event_tagging.c:121-154 | the nibble loop writes exactly the bytes of the number, for 32 and 64 bits |
| TagCodec.IntFormat | ios/Pods/libevent/event_tagging.c:121-154 | these are one less than the number of nibbles and then the hexadecimal digits of the number, the last one first |
| TagCodec.ShiftedIs | ios/Pods/libevent/event_tagging.c:121-154 | shifting by nibbles is dividing by powers of sixteen |
| TagCodec.IntRoundTrip | ios/Pods/libevent/event_tagging.c:121-377 | an encoded integer is decoded, with its length, whatever follows |
| TagCodec.EncodeTag | ios/Pods/libevent/event_tagging.c:177-198 | the loop writes the seven-bit groups |
| TagCodec.TagFormat | ios/Pods/libevent/event_tagging.c:177-198 | these are groups of seven bits, the least significant first, each but the last with its top bit set |
| TagCodec.FormatExamples | ios/Pods/libevent/event_tagging.c:121-198 | the bytes of 0, of 0xaf0 and of the tag 0x12c |
| TagCodec.TagRoundTrip | ios/Pods/libevent/event_tagging.c:177-246 | an encoded tag is decoded, with its length, whatever follows |
| TagStream.HeaderRoundTrip | ios/Pods/libevent/event_tagging.c:260-455 | header, payload and rest of a marshalled record are found again |
| TagStream.Marshal | ios/Pods/libevent/event_tagging.c:260-267 | appends exactly the record if there is room, and what fits of it in any case |
| TagStream.MarshalBuffer | ios/Pods/libevent/event_tagging.c:269-277 | appends the record and empties the other buffer; the length is cut to 32 bits, and frozen ends keep the payload where it is |
| TagStream.MarshalInt | ios/Pods/libevent/event_tagging.c:280-301 | appends a record that holds the integer |
| TagRead.DecodeTagInternal | ios/Pods/libevent/event_tagging.c:200-246 | what the bytes mean as a tag, or -1 exactly when they do not; drained or not |
| TagRead.DecodeIntInternal | ios/Pods/libevent/event_tagging.c:319-377 | what the bytes mean as an integer, or -1 exactly when they do not |
| TagRecords.UnmarshalHeader | ios/Pods/libevent/event_tagging.c:441-455 | length and tag of the record, and what is left in every case of failure |
| TagRecords.PeekLength | ios/Pods/libevent/event_tagging.c:405-421 | the length of the whole record, in 32 bits, without changing the buffer |
| TagRecords.PayloadLength | ios/Pods/libevent/event_tagging.c:423-437 | the length of the payload |
| TagRecords.Consume | ios/Pods/libevent/event_tagging.c:457-466 | takes away the whole record, what peeking says, exactly when its length is a signed integer or nothing follows; what it does with longer ones |
| TagRecords.ConsumeExample | ios/Pods/libevent/event_tagging.c:457-466 | a marshalled record with a payload of 2^31 bytes and one byte behind it: the call succeeds and takes that byte along |
| TagRecords.Unmarshal | ios/Pods/libevent/event_tagging.c:470-484 | moves exactly the payload, and leaves exactly what follows; refused exactly when there is no whole record under 2^31 bytes or no room for it |
| TagRecords.UnmarshalAll | ios/Pods/libevent/event_tagging.c:260-484 | any list of records with payloads under 2^31 bytes is read back in order, and exactly what follows is left |
| TagRecords.MarshalAll | ios/Pods/libevent/event_tagging.c:260-267 | records one after the other |
| TagRecords.UnmarshalInt | ios/Pods/libevent/event_tagging.c:488-538 | the integer of a record with the right tag, or -1 exactly otherwise, and what is left in every case |
| TagRecords.IntRecordRoundTrip | ios/Pods/libevent/event_tagging.c:280-538 | an integer that was marshalled is unmarshalled, also when its payload goes on behind it |
| TagRecords.IntCutShort | ios/Pods/libevent/event_tagging.c:488-538 | a payload that is shorter than its integer says is not taken for one |
| TagRecords.UnmarshalFixed | ios/Pods/libevent/event_tagging.c:542-559 | only a payload of exactly that length |
| PairFlow.Transfer | ios/Pods/libevent/bufferevent_pair.c:152-192 | bytes go over in order, none is lost, and how many stay; without flushing the input never passes the watermark; afterwards the output is empty or reading is suspended |
| PairFlow.InputChanged | ios/Pods/libevent/bufferevent.c:135-149 | reading is suspended exactly when the input has reached the watermark |
| PairFlow.UnsuspendRead | ios/Pods/libevent/bufferevent.c:77-86 | a reader that may read again gets what waits, through any depth of callbacks |
| PairFlow.HandOver | ios/Pods/libevent/bufferevent_pair.c:224-250 | nothing is left for a partner that can read, and how many bytes stay otherwise |
| PairFlow.Write | ios/Pods/libevent/bufferevent.c:451-458 | written bytes are conserved and handed over when the partner can read |
| PairFlow.Read | ios/Pods/libevent/bufferevent.c:469-473 | the first bytes of the input, and more follows when there is room |
| PairFlow.UnsuspendWrite | ios/Pods/libevent/bufferevent.c:99-108 | the partner is asked again |
| PairFlow.SetWatermark | ios/Pods/libevent/bufferevent.c:593-638 | suspends or resumes reading for the new mark |
| PairFlow.Flush | ios/Pods/libevent/bufferevent_pair.c:304-337 | how many bytes stay; the output is emptied exactly when there is no watermark, it has been reached, or all fits below it |
| PairRun.PairNew | ios/Pods/libevent/bufferevent_pair.c:114-150 | two linked, frozen, empty ends |
| PairRun.DeliveredIs | ios/Pods/libevent/bufferevent_pair.c:152-192 | order and number of bytes that stay determine both ends after a delivery |
| PairRun.FlushExample | ios/Pods/libevent/bufferevent_pair.c:304-337 | ten bytes flushed to an empty input with a watermark of four: six stay |
| PairRun.Do | ios/Pods/libevent/bufferevent_pair.c:152-337 | what each call does to both ends: bytes, switches, reasons, and nothing else |
| PairRun.PairAfterMore | ios/Pods/libevent/bufferevent_pair.c:152-337 | what a run does to a pair is what its calls do, one after the other |
| PairRun.Enable | ios/Pods/libevent/bufferevent.c:481-503 | the switches are on as asked for, both ends are what enabling makes of them, and settled again |
| PairRun.Unlink | ios/Pods/libevent/bufferevent_pair.c:264-274 | nothing is lost when the ends part |
| PairRun.Run | ios/Pods/libevent/bufferevent_pair.c:152-337 | over any run of calls at both ends each end is exactly what the calls make of it; what was written is what was read, then the input, then the output, and every direction is settled |

## Left out

- Addresses in `buffer.c`: a chain is a value in a sequence and a link is a slot number (slot 0 is `&first`, slot i + 1 the `next` field of chain i), so sharing of chains and blocks between buffers is not captured.
- Pinned, multicast and file-segment chains, overlapped I/O, formatted output, and file descriptors of buffers.
- Allocation failure, logging, debugging tables and lock debugging; memory is always there.
- The widths of sizes except where the source tests them: lengths are compared with the largest size where it does, and results are not cut to `int`.
- Callbacks of buffers only look; they do not change the buffer that calls them.
- Callbacks on one buffer hear the same reports, so the list of them is whether there is one; taking one off the list is left out.
- Negative sizes when space is reserved, which the source takes as large ones.
- Chains.NewChain: the source refuses sizes above EVBUFFER_CHAIN_MAX less the header of a chain by a test on the size alone; here every size is served.
- EvBufferSpace.Reserve: is refused in the source as well for a size that no chain can have; that test is not modelled.
- EvBufferSpace.ExpandSinglechain: fails in the source for such a size; not modelled.
- EvBufferSpace.ExpandFast: fails in the source for such a size; not modelled.
- EvBufferBasic.Add: fails in the source when the new chain would have such a size; not modelled.
- EvBufferBasic.Prepend: fails in the source when the new chain would have such a size; not modelled.
- For one region `EvBufferSpace.Reserve` does not promise that the commit will find it, because it does not always; `EvBufferSpace.WriteThrough` says exactly when.
- EvBufferMove.RemoveBuffer: asks that both buffers together fit the address space, which the source takes for granted.
- The edge-trigger flag and signals in the descriptor map; `epoll.c` is not part of this model, so what an operation does to the kernel is taken from the rule written above the table.
- The heap of timeouts is a set with a least element; its sifting is not modelled, and the reinsertion path that the source compiles out is left out.
- Times of events are microseconds with the number of a common timeout, instead of seconds and microseconds with that number in the upper bits; a tag that names no list of the base does not occur.
- Waiting for other threads in `event.c`, waking the loop, counts of signal calls, the highest counts ever, and the count of deferred callbacks.
- The loop in `event.c` is modelled by its steps, in any order; how many events one round runs is left out, and so is changing the number of priorities.
- Event priorities stay below the number of queues; `event_base_priority_init` after events exist is left out.
- EventOps.EventAdd: what the maps of descriptors and signals answer is a parameter; `EventMap.AddWithMap` gives it the answer of the descriptor map, and signals always succeed there. An event that leaves the descriptor map does so at the end of a step there and not in the middle.
- EventRun.ValidMeansOk: the checks of the descriptor map and of the order inside the heap are not among those it covers.
- EventRun.Run: callers do not add or delete the events that stand for common timeouts, which are internal to the library.
- DnsEncode.NameToLabels: that the bytes spell the name is said of names without empty labels (but for a dot at the end) and without zero bytes; others are written, and read differently. A byte behind the given space has to be there for the terminating zero, and the start has to be below 16384.
- DnsRoundTrip.WriteItems: the length of a record's data, which the source writes into the packet once the name in it is there, is given with the other data.
- What the network does with a packet is given with each operation (`DnsRequests.Outcome`, `DnsFlow.Network`): taken, later, or failed; a server that is known to be choked is one that takes it later.
- DNS replies, searches, resolver files, the handles of requests, and clearing all name servers.
- DnsRequests.NameserverUp: the probe that a server coming back cancels is a call of its own (`DnsFlow.Cancel`).
- A hard limit on requests in flight, which probes may pass, and unique ids, which the library does not ensure for a request that is created before it is inserted.
- DnsRequests.TransactionIdPick: the random choice is any free id; that a random generator finds it is not modelled.
- Name servers are there from the start; adding them later is left out, and times of probes too.
- RateFlow.Transfer: a member asks for its share and uses it in one step; between the two another member could use the rest.
- RateOwn.Run: a bufferevent with a limit of its own that is in a group as well, a change of its limit, and decrements by hand are not in these runs.
- Negative decrements of a group's limit (`bufferevent_rate_limit_group_decrement_read`), so that the limit of a group is never above its maximum here; for a bufferevent of its own they are modelled.
- Locks do not change hands within one pass over the members of a group.
- Reading tagged records from a buffer whose start is frozen.
- Strings and times in tagged records, which are payloads like others.
- Timeouts, events, callbacks of users, reference counts and locks of bufferevents; callbacks of pairs are always deferred, so none of them runs inside a call.
- `bufferevent_filter.c` and `bufferevent_sock.c`, and the application itself, which has no hard logic.
