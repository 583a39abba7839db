# A verified model of the zepto memory manager and the mesh root of SmartAnthill

The project models four parts of the SmartAnthill server and proves what they are for.

- **The zepto memory manager** (`Tags`, `Layout`, `HeapSteps`, `HeapModule`, `HeapRuns`, `HeapLaws`). A relocating heap inside one byte array. Each handle owns one block, a request part followed by a response part; the blocks lie in handle order and the gaps between them carry their length at both ends. Class `Heap` works in place on the array and the handle table, with the original's loops and branches. It is proved to refine a machine without addresses: a table of (request, response) pairs and a number of bytes left. The refinement holds for whole runs, and for every answer on the way: an operation runs out of memory exactly when the bytes are really gone.
- **The variable-length integer codec** (`VarInt`, `Packets`). Byte-array arithmetic (shift by seven, subtract one with borrow, compare) is proved to be integer arithmetic; the encoder emits the redundancy-free base-128 code; the decoder, written in quite another style with a sliding accumulator, inverts it.
- **The mesh root** (`Tables`, `MeshState`, `Routes`, `MeshRootModule`, `MeshRuns`, `RouteExamples`, `Resend`, `Fletcher`). Planned and confirmed tables per device, the merge that computes a difference, its application, at most one update in flight per device, acknowledgement and failure, planning of routes, link ids, the resend list, the table checksum. The invariant of the update protocol is proved to survive every event, and a run that acknowledges everything is proved to bring every device up to date, except a class of devices that is exactly described. Planning a route is proved to be a function of the tables, and that function is asked when it changes nothing, when it ends, who has to be told, and when a packet for the target gets there.
- **The communication layer** (`Comm`). Framing over a byte stream that arrives in arbitrary pieces, the blocking synchronous request, and the queue of packets put off while it waits: nothing is lost, duplicated or reordered, what is struck out of the stream are exactly the replies the requests returned, and what the receive calls bring, decided exactly from their schedule, is read and delivered.

Modules follow the source's files; each method's contract ties the new state to a function of the old one, and the lemmas beside it say what that function means. `dafny verify dfyconfig.toml` checks everything.

## Where the code and its intention differ

Each of these is kept as the code has it, with the exact condition proved and an input that shows it.

- An acquire that finds every slot taken, and exactly the bytes of a new record left, fails and leaves a free slot at the end of the table; over a whole run the table comes to end in a free slot exactly if that happens (`HeapLaws.FreeTail`, `HeapLaws.FreeTailOverRuns`, `HeapLaws.FreeTailHappens`). Releasing a handle just acquired undoes the acquire unless that slot was the one handed out (`HeapLaws.AcquireThenRelease`, `HeapLaws.UndoFails`).
- An acquire that cannot extend the storage block goes on with a null pointer; the model stops there with the outcome `StorageFault`, and says when it happens (`HeapModule.Heap.Acquire`, `HeapLaws.StorageFaultHappens`).
- A failed prepend has already dropped the request (`HeapModule.Heap.Prepend`, `HeapLaws.PrependLosesRequest`).
- Prepending a block looks the block up in the table of fixed handles, which has no entry for an acquired handle; the model stops there with the outcome `NotInTable`, exactly for acquired handles (`HeapModule.Heap.WritePrependBlock`, `HeapLaws.NotInTableHappens`). Callers that write through the address the allocator returns do not depend on that table; what else they depend on for acquired handles is under "Left out".
- The encoder's output buffer has 16 bytes, which is enough exactly below a certain number; its own size check admits numbers that do not fit (`VarInt.OutputBufferFits`), and the model stops there with the outcome `BufferTooSmall` (`Packets.EncodeAndAppend`).
- The decoder tests for the end of its input before it steps on, so that it may consume one byte more than it was given, under an exact condition (`VarInt.ConsumesOneTooMany`). Nine-byte codes are always rejected (`VarInt.RoundTrip`). How many bytes a request has left reaches it as an 8-bit number, so that a request with a multiple of 256 bytes left is taken for an empty one (`Packets.CompleteCode`, `Packets.LongRequestRejected`).
- Planning a route reads the next hop from the link table at the index of the *route*, not at the index of the route's link. Whether a packet for the target then arrives is decided exactly, over the tables before the plan: the device before the target will send it there, one on the way of the walk will send it where it sends packets for the device before the target, any other where it did; the packet arrives if and only if following these from the root leads to the target, within as many steps as there are devices (`Routes.ArrivesWhen`). For one particular path, along the way of the walk, it is carried there exactly if on every step the hop read was the device's own (`Routes.DeliveredWhen`, `Routes.DeliveredWhenAgreed`; the target must not be on the way); a packet may arrive by other hops all the same. Runs from the start reach tables where the wrong hop leads to no route (`RouteExamples.WrongHop`, `RouteExamples.LosesItsWay`) and tables where the plan is done and packets are lost (`RouteExamples.LostPacket`, `RouteExamples.LosesPackets`).
- The comment that no changes are made when no route is found is true exactly if no device but the root was on the way and the root had the route already: of the tables alone, exactly if every device on the way had it (`MeshRootModule.MeshRoot.RouteAdded`, `Routes.UnchangedWhen`); of tables and waiting list, exactly if besides there was none but the root, because any other is put on the list again (`Routes.NothingHappens`). In `RouteExamples.WrongHop` it is false.
- The walk of a plan may never end: exactly if, after some hops, it is in a circle of hops read from devices that have learned the route, and exactly if it is still going on after n(n+1) hops with n devices (`Routes.EndlessWhen`). A run from the start reaches such tables (`RouteExamples.CircleNeverEnds`, `RouteExamples.GoesInCircles`). If the hops of all devices lead in no circle, n hops are enough (`Routes.PlanEnds`).
- A device that is to be rewritten to empty tables is never sent anything, because an update without entries is skipped but its initiator kept: `MeshRuns.Settle` proves that a fully acknowledged run brings all other devices up to date and leaves these as they were, and `MeshRuns.StrandsADevice` is a run that strands one.
- The table checksum is taken over everything but the intra-bus ids (`Fletcher.IntraBusUnseen`, `Fletcher.OneChecksumTwoTables`).

## Model

| member | source | states |
|---|---|---|
| Tags.ForwardRoundTrip | server/src/zepto_mem_mngmt.c:91-142 | for every 16-bit length, parsing forward gives n if and only if the bytes there are n's forward tag; so no length has two tags |
| Tags.BackwardRoundTrip | server/src/zepto_mem_mngmt.c:109-167 | the same for the tag at the right end, read downwards |
| Tags.TagLen | server/src/zepto_mem_mngmt.c:91-107 | a tag takes one to three bytes, never more than the gap it describes, and from two bytes on at most half of it |
| Tags.BothTagsSurvive | server/src/zepto_mem_mngmt.c:91-125 | writing either tag of a gap leaves the other one readable, down to the shared byte of a one-byte gap |
| Tags.GapParses | server/src/zepto_mem_mngmt.c:127-167 | both tags of a well-formed gap read as its true length |
| HeapModule.Heap.WriteForward | server/src/zepto_mem_mngmt.c:91-107 | the writer's three branches write the tag, and only the tag's bytes |
| HeapModule.Heap.WriteBackward | server/src/zepto_mem_mngmt.c:109-125 | the same downwards from the gap's last byte |
| Layout.LocalChange | server/src/zepto_mem_mngmt.c:239-404 | the framing law of the sanity check: if the gaps inside a rearranged stretch are in order, the whole heap is, and no block outside has changed |
| Layout.Conservation | server/src/zepto_mem_mngmt.c:239-404 | blocks, their gap bytes and the freeable bytes add up to the whole array, wherever the blocks lie |
| Layout.FreeableAround | server/src/zepto_mem_mngmt.c:613-691 | counted from any live block, the freeable space to its right and to its left is all there is |
| Layout.FreeableNonNegative | server/src/zepto_mem_mngmt.c:613-691 | no sum of freeable bytes is negative or leaves 16 bits |
| HeapModule.Heap.constructor | server/src/zepto_mem_mngmt.c:417-434 | initialisation gives every fixed handle an empty block and leaves a well-formed heap |
| HeapModule.Heap.MoveMaxRight | server/src/zepto_mem_mngmt.c:436-466 | the block slides until its right gap is one byte; nobody's contents change; a released slot is skipped |
| HeapModule.Heap.MoveMaxLeft | server/src/zepto_mem_mngmt.c:468-500 | the mirror image |
| HeapModule.Heap.FreeableAtRight | server/src/zepto_mem_mngmt.c:502-518 | the right gap less its one byte, nothing for a released slot |
| HeapModule.Heap.FreeableAtLeft | server/src/zepto_mem_mngmt.c:520-536 | the left gap less its one byte |
| HeapModule.Heap.TotalFreeableAtRight | server/src/zepto_mem_mngmt.c:613-656 | the sum of freeable bytes over the range it names, which is the whole right side unless the desired size was reached earlier |
| HeapModule.Heap.TotalFreeableAtLeft | server/src/zepto_mem_mngmt.c:658-691 | the mirror image |
| HeapModule.Heap.MoveAllRight | server/src/zepto_mem_mngmt.c:584-595 | compacts a range to the right: contents, sizes and everything outside stay, all inner gaps become one byte |
| HeapModule.Heap.MoveAllLeft | server/src/zepto_mem_mngmt.c:597-611 | the mirror image |
| HeapSteps.PackedRightGathers | server/src/zepto_mem_mngmt.c:584-595 | after compacting, the space freed beside the block is the sum of what was freeable over the range |
| HeapSteps.PackedLeftGathers | server/src/zepto_mem_mngmt.c:597-611 | the mirror image |
| HeapSteps.SameFreeable | server/src/zepto_mem_mngmt.c:436-500 | moving blocks conserves the total of freeable bytes |
| HeapModule.Heap.TryExpandRight | server/src/zepto_mem_mngmt.c:923-942 | grows the response at its end exactly if the right gap has room, otherwise does nothing |
| HeapModule.Heap.TryExpandLeft | server/src/zepto_mem_mngmt.c:944-970 | grows it at its start exactly if the left gap has room, otherwise does nothing |
| HeapModule.Heap.TryMoveLeftExpandRight | server/src/zepto_mem_mngmt.c:972-986 | succeeds exactly if both gaps of the block together have room |
| HeapModule.Heap.TryMoveRightExpandLeft | server/src/zepto_mem_mngmt.c:988-1009 | the mirror image |
| HeapModule.Heap.Append | server/src/zepto_mem_mngmt.c:1013-1068 | succeeds exactly if the sum over all gaps of (gap - 1) suffices; adds n bytes to the response, keeps the rest and every other handle; on failure nobody's contents change |
| HeapModule.Heap.Prepend | server/src/zepto_mem_mngmt.c:1071-1148 | the same at the response's start, the dropped request counting as free; on failure the request is gone and all else is as it was |
| HeapModule.Heap.TrimAtRight | server/src/zepto_mem_mngmt.c:1284-1295 | bytes cut off at the end join the right gap, which is tagged anew |
| HeapModule.Heap.TrimAtLeft | server/src/zepto_mem_mngmt.c:1297-1307 | bytes cut off at the start join the left gap |
| HeapModule.Heap.CutAndMakeResponse | server/src/zepto_mem_mngmt.c:1309-1324 | the named part of the request becomes the response, the rest goes |
| HeapModule.Heap.RequestToResponse | server/src/zepto_mem_mngmt.c:1326-1330 | the request becomes the response, the old response goes |
| HeapModule.Heap.ResponseToRequest | server/src/zepto_mem_mngmt.c:1332-1344 | the response becomes the request, the old request goes |
| HeapModule.Heap.Free | server/src/zepto_mem_mngmt.c:1346-1356 | both parts become empty |
| HeapModule.Heap.FreeResponse | server/src/zepto_mem_mngmt.c:1358-1368 | the response becomes empty, the request stays |
| HeapModule.Heap.StripBeginningOfRequest | server/src/zepto_mem_mngmt.c:1370-1382 | the request loses its first n bytes |
| HeapModule.Heap.Acquire | server/src/zepto_mem_mngmt.c:1386-1529 | hands out the lowest free slot with an empty pair, and says exactly when it fails and what a failure leaves; every other handle is untouched |
| HeapModule.Heap.PlaceEmpty | server/src/zepto_mem_mngmt.c:1453-1529 | the new empty block finds its place behind its predecessor exactly if one byte is free anywhere |
| HeapModule.Heap.NudgeLeft | server/src/zepto_mem_mngmt.c:1473-1489 | the predecessor moves one byte left and the empty block takes the byte; contents stay |
| HeapModule.Heap.Release | server/src/zepto_mem_mngmt.c:1531-1588 | the handle's slot becomes free, its bytes join one gap with both neighbours, free slots at the table's end go with their records |
| HeapModule.Heap.WriteBlock | server/src/zepto_mem_mngmt.c:1642-1648 | the block's bytes follow the response, exactly if there is room for them |
| HeapModule.Heap.PrependBytes | server/src/commstack_commlayer.c:317-348 | bytes written where the allocator says precede the response, exactly if there is room once the request is gone; this is how queued packets and headers are put in front |
| HeapModule.Heap.WritePrependBlock | server/src/zepto_mem_mngmt.c:1813-1820 | if and only if: when prepending a block through the table of fixed handles works (a fixed handle, and room), and what each other outcome leaves |
| HeapRuns.Do | server/src/zepto_mem_mngmt.c:1013-1588 | each operation does to what owners see exactly what the address-free specification says, and answers the same |
| HeapRuns.Run | server/src/zepto_mem_mngmt.c:239-1588 | refinement over whole runs: every run of allowed operations keeps the heap in order and gives the specification's final table and answers |
| HeapRuns.RunFromInit | server/src/zepto_mem_mngmt.c:417-1588 | the same for every run from initialisation on, for every size of array and number of fixed handles |
| HeapRuns.AcquireRefines | server/src/zepto_mem_mngmt.c:1386-1529 | with records living in the storage block hidden, acquire is the specification's step |
| HeapRuns.ReleaseRefines | server/src/zepto_mem_mngmt.c:1531-1588 | and so is release |
| HeapLaws.OthersUntouched | server/src/zepto_mem_mngmt.c:1013-1588 | no operation on one handle changes another owner's bytes |
| HeapLaws.StepKeepsBudget | server/src/zepto_mem_mngmt.c:1013-1588 | no step hands out more bytes than the array has |
| HeapLaws.FreeTail | server/src/zepto_mem_mngmt.c:1386-1588 | if and only if, from the state before the step: when the slot table ends in a free slot after it |
| HeapLaws.FreeTailOverRuns | server/src/zepto_mem_mngmt.c:1386-1588 | if and only if, over any run: the table comes to end in a free slot exactly if some acquire meets a state with every slot taken and just a record's bytes left |
| HeapLaws.FreeTailHappens | server/src/zepto_mem_mngmt.c:1386-1588 | a legal run from initialisation that gets there |
| HeapLaws.UndoFails | server/src/zepto_mem_mngmt.c:1386-1588 | a legal run to a state where acquiring and releasing does not give back what was there |
| HeapLaws.StorageFaultHappens | server/src/zepto_mem_mngmt.c:1386-1443 | a legal run that meets an acquire without room for its record |
| HeapLaws.PrependLosesRequest | server/src/zepto_mem_mngmt.c:1071-1148 | a legal run in which a prepend fails and the request is gone |
| HeapLaws.NotInTableHappens | server/src/zepto_mem_mngmt.c:1813-1820 | a legal run in which a block is prepended for an acquired handle |
| HeapLaws.AcquireThenRelease | server/src/zepto_mem_mngmt.c:1386-1588 | if and only if: when acquiring and at once releasing gives back the same table, records, contents and space |
| VarInt.TagIsCode | server/src/zepto_mem_mngmt.c:91-125 | the gaps' boundary tags are this code for 16-bit numbers |
| VarInt.ShiftedValue | server/src/zepto_mem_mngmt.c:1833-1842 | the byte-wise shift divides the number by 128 |
| VarInt.DecrementedValue | server/src/zepto_mem_mngmt.c:1844-1854 | the borrow loop subtracts one, modulo the width |
| VarInt.ShiftRight7 | server/src/zepto_mem_mngmt.c:1833-1842 | in place, the first cnt bytes become the number divided by 128; the others stay |
| VarInt.Subtract1 | server/src/zepto_mem_mngmt.c:1844-1854 | in place, a positive number becomes one less |
| VarInt.IsLess128 | server/src/zepto_mem_mngmt.c:1856-1864 | the comparison of the number the bytes stand for |
| VarInt.StripZeros | server/src/zepto_mem_mngmt.c:1867-1893 | dropping high zero bytes keeps the number |
| VarInt.EncodeUint | server/src/zepto_mem_mngmt.c:1867-1931 | the loop writes exactly the number's code and nothing else, and terminates |
| VarInt.CodeLength | server/src/zepto_mem_mngmt.c:1867-1931 | a number takes at most k bytes if and only if it is below Limit(k) |
| VarInt.OutputBufferFits | server/src/zepto_mem_mngmt.c:2013-2051 | if and only if: when the 16-byte output buffer suffices; it does up to 14 bytes, and a 15-byte number shows it may not |
| VarInt.DecodesCode | server/src/zepto_mem_mngmt.c:1933-2002 | reading a code gives its number back and stops at its last byte, whatever follows |
| VarInt.CodesDecoded | server/src/zepto_mem_mngmt.c:1867-2002 | every terminated byte string is the code of the number it reads as: there are no redundant encodings |
| VarInt.RoundTrip | server/src/zepto_mem_mngmt.c:1867-2002 | a complete code is accepted if and only if it has at most eight bytes and the number fits |
| VarInt.SevenBytesRoundTrip | server/src/zepto_mem_mngmt.c:1867-2002 | every number of up to seven bytes survives encoding and decoding |
| VarInt.ConsumesOneTooMany | server/src/zepto_mem_mngmt.c:1933-2002 | if and only if: when the decoder consumes a byte behind those it was given |
| VarInt.DecodeUint | server/src/zepto_mem_mngmt.c:1933-2002 | the accumulator loop accepts exactly the decodable codes, writes exactly the number and stops behind its last byte |
| Packets.EncodeAndAppend | server/src/zepto_mem_mngmt.c:2013-2051 | for every number of up to sixteen bytes: appends its code to the response exactly if the code fits the buffer and there is room, otherwise changes nothing |
| Packets.DecodeFromRequest | server/src/zepto_mem_mngmt.c:2305-2321 | for every request and offset: accepts exactly what can be decoded from the request and the byte behind it, given the bytes left as an 8-bit number, and moves the offset behind the code |
| Packets.CompleteCode | server/src/zepto_mem_mngmt.c:1933-2321 | if and only if: when a complete code at the offset is read back |
| Packets.LongRequestRejected | server/src/zepto_mem_mngmt.c:2305-2321 | a request with 256 bytes left is taken for an empty one |
| Tables.PutKeepsOrder | server/src/commstack_siot_mesh_support.cpp:423-476 | adding or updating keeps keys strictly increasing and changes one key's value only |
| Tables.RemoveKeepsOrder | server/src/commstack_siot_mesh_support.cpp:444-507 | removing keeps the order and removes one key only |
| Tables.AddOrUpdate | server/src/commstack_siot_mesh_support.cpp:423-442 | the loop puts the entry at its place |
| Tables.InsertLink | server/src/commstack_siot_mesh_support.cpp:478-494 | the new link gets the least id not in use and its place in the order |
| Tables.InsertKeepsDense | server/src/commstack_siot_mesh_support.cpp:478-494 | ids stay 0, 1, 2, ... without holes |
| Tables.Diff | server/src/commstack_siot_mesh_support.cpp:1406-1522 | applied to the confirmed table the difference gives exactly the planned one; every deletion finds its entry, no change is superfluous, the changes come in key order, no key twice; there is none at all if and only if the tables agree; the merge terminates |
| Tables.Apply | server/src/commstack_siot_mesh_support.cpp:1265-1373 | applies all changes in order and notices exactly if a deletion does not find its entry |
| Tables.FullUpdate | server/src/commstack_siot_mesh_support.cpp:1557-1585 | the full update adds the entries of the planned table, one by one and nothing else; applied to cleared tables it gives exactly that table |
| MeshState.AllSynchronised | server/src/commstack_siot_mesh_support.cpp:1524-1554 | with nothing waiting and nothing in flight, every device has confirmed exactly what is planned |
| MeshState.Planned | server/src/commstack_siot_mesh_support.cpp:1226-1237 | re-planning keeps the protocol's invariant if the root mirrors its own tables and any other device is queued |
| MeshState.Issued | server/src/commstack_siot_mesh_support.cpp:1705-1772 | issuing moves a device from the waiting list into flight and keeps the invariant |
| MeshState.Acknowledged | server/src/commstack_siot_mesh_support.cpp:1875-1894 | an acknowledged update, applied, gives the tables planned when it was issued, and the invariant stays |
| MeshState.Failed | server/src/commstack_siot_mesh_support.cpp:1896-1915 | a failed update goes back to the waiting list and the invariant stays |
| MeshRootModule.MeshRoot.constructor | server/src/commstack_siot_mesh_support.cpp:332-353 | the root starts alone with empty tables and the invariant |
| MeshRootModule.MeshRoot.AddDevice | server/src/commstack_siot_mesh_support.cpp:357-379 | a device not yet known joins with empty tables, a known one is refused |
| MeshRootModule.MeshRoot.Compute | server/src/commstack_siot_mesh_support.cpp:1406-1585 | the update takes the device from its confirmed to its planned tables and says what is needed and nothing else: in full, every planned entry; by difference, in key order, only entries not confirmed and keys no longer planned; it is empty exactly if there is nothing to say |
| MeshRootModule.MeshRoot.GetNextUpdate | server/src/commstack_siot_mesh_support.cpp:1705-1772 | issues the update of the first waiting device that is ready, one that says what is needed and nothing else, and drops exactly those before it that are up to date |
| MeshRootModule.MeshRoot.UpdateDone | server/src/commstack_siot_mesh_support.cpp:1875-1894 | the device's confirmed tables become those planned when the update was issued, whatever was planned since; nothing else changes |
| MeshRootModule.MeshRoot.UpdateFailed | server/src/commstack_siot_mesh_support.cpp:1896-1915 | the update leaves flight and the device waits for a full rewrite: first in the list, with the rest of it behind as it was, if it did not wait; at its place, with nothing else changed, if it did |
| MeshRootModule.MeshRoot.QueueFull | server/src/commstack_siot_mesh_support.cpp:1239-1254 | a device that does not wait joins at the front with all others behind as they were; one that does is marked for a full rewrite at its place, its affected routes kept; nothing else changes |
| MeshRootModule.MeshRoot.QueueUpdate | server/src/commstack_siot_mesh_support.cpp:1226-1237 | the affected route joins the device's initiator, or a new one comes last |
| Routes.LinkedToIs | server/src/commstack_siot_mesh_support.cpp:1642-1664 | the first link to the target is reused and moved to the bus, or one made under the least unused id if there was none; no other link changes |
| MeshRootModule.MeshRoot.LinkTo | server/src/commstack_siot_mesh_support.cpp:1642-1664 | the search and the two inserts compute that link table and id, and the root's copy follows |
| MeshRootModule.MeshRoot.LastHop | server/src/commstack_siot_mesh_support.cpp:1637-1677 | exactly one device changes, by the link and the route over it, and is queued with the target unless it is the root |
| MeshRootModule.MeshRoot.RouteBack | server/src/commstack_siot_mesh_support.cpp:1679-1692 | exactly the target changes: its link 0 leads to the next hop on the bus, its route to the root is over link 0, its other routes and links are as they were; and it is queued |
| MeshRootModule.MeshRoot.Hop | server/src/commstack_siot_mesh_support.cpp:1602-1634 | exactly one device learns the route and is queued unless it is the root, and the hop is the one the program reads; or nothing changes |
| MeshRootModule.MeshRoot.WalkTo | server/src/commstack_siot_mesh_support.cpp:1598-1637 | the loop is the walk from the root to the device before the target, wherever it ends: its way, the tables it leaves and the waiting list |
| MeshRootModule.MeshRoot.RouteAdded | server/src/commstack_siot_mesh_support.cpp:1587-1698 | devices, waiting list, way and outcome are exactly those of the plan; the invariant holds, no other route or link changes; without a route the tables are unchanged if and only if every device on the way had it already, and tables and waiting list if and only if besides none but the root was on the way; the devices queued are those on the way and at its end, newcomers in that order, everybody else at their place |
| Routes.PlanKeeps | server/src/commstack_siot_mesh_support.cpp:1587-1698 | a plan leaves alone all other routes, all links and confirmed tables off its ends and every device off its way; when done, the devices on the way follow their routes and both ends are linked |
| Routes.PlanQueues | server/src/commstack_siot_mesh_support.cpp:1587-1698 | the waiting list after the plan: whoever waited keeps place and full flag, with the target once more for each time it is met; newcomers are exactly the devices met that did not wait, save the root, in the order first met |
| Routes.QueuedAllIs | server/src/commstack_siot_mesh_support.cpp:1226-1237 | that closed form, for any devices put on the list one after the other |
| Routes.NothingHappens | server/src/commstack_siot_mesh_support.cpp:1615-1634 | if and only if: when a plan that finds no route changes neither tables nor waiting list |
| Routes.UnchangedWhen | server/src/commstack_siot_mesh_support.cpp:1615-1634 | if and only if: when the walk leaves all tables as they were, however it ends |
| Routes.ArrivesWhen | server/src/commstack_siot_mesh_support.cpp:1587-1698 | if and only if, over the tables before the plan: when a packet the root sends to the target arrives by the planned tables, and in how many steps |
| Routes.DeliveredWhen | server/src/commstack_siot_mesh_support.cpp:1587-1698 | if and only if: when planned tables carry a packet along one path, from the root along the way to the device before the target and on to the target, the target not being on the way |
| Routes.EndlessWhen | server/src/commstack_siot_mesh_support.cpp:1600-1634 | if and only if: when the walk never ends, as a circle it enters and as a number of hops it outlasts |
| Routes.PlanEnds | server/src/commstack_siot_mesh_support.cpp:1600-1634 | if the hops of no devices lead in a circle the walk ends within as many hops as there are devices and meets none twice |
| Routes.DeliveredWhenAgreed | server/src/commstack_siot_mesh_support.cpp:1614-1626 | if and only if: carriage along that path, on a walk that meets no device twice, comes down to the link at each route's index leading where the route's link leads |
| RouteExamples.RightHop | server/src/commstack_siot_mesh_support.cpp:1587-1698 | tables where the right hop is read, and the packet for the target is carried there |
| RouteExamples.WrongHop | server/src/commstack_siot_mesh_support.cpp:1614-1634 | tables where the wrong hop is read: the plan ends without a route and the root has been rewritten |
| RouteExamples.LosesItsWay | server/src/commstack_siot_mesh_support.cpp:1587-1698 | a run of events from the start that gets there |
| RouteExamples.LostPacket | server/src/commstack_siot_mesh_support.cpp:1587-1698 | tables where the wrong hop is read, the plan is done, and a packet for the target never arrives |
| RouteExamples.LosesPackets | server/src/commstack_siot_mesh_support.cpp:1587-1698 | a run of events from the start, every plan in it done, that gets there |
| RouteExamples.CircleNeverEnds | server/src/commstack_siot_mesh_support.cpp:1600-1634 | tables on which the walk never ends |
| RouteExamples.GoesInCircles | server/src/commstack_siot_mesh_support.cpp:1587-1698 | a run of events from the start that gets there |
| MeshRuns.Run | server/src/commstack_siot_mesh_support.cpp:1226-1915 | over every run of events the invariant holds, with both lists empty all devices are synchronised, and the first update sent to a device after the loss of one clears its tables; until then a full rewrite stays due |
| MeshRuns.FullUntilSent | server/src/commstack_siot_mesh_support.cpp:1226-1915 | no event but the sending of a clearing update takes a due full rewrite off the list |
| MeshRuns.FailThenSearch | server/src/commstack_siot_mesh_support.cpp:1239-1915 | if and only if: after the loss of an update to a device that does not wait, the next search issues the rewrite of that very device, before all that waited and with their places kept, exactly if there is anything to write |
| MeshRuns.StrandsADevice | server/src/commstack_siot_mesh_support.cpp:1705-1772 | a run of events from the start that leaves a device stranded, its confirmed tables not those planned |
| MeshRuns.Settle | server/src/commstack_siot_mesh_support.cpp:1705-1894 | from any state, acknowledging every update ends after finitely many with every device exactly as planned, except those waiting for a rewrite to empty tables, which keep what they had or what was in flight to them; no plan changes |
| MeshRuns.SearchKeepsStranded | server/src/commstack_siot_mesh_support.cpp:1705-1772 | a search for the next update neither strands a device nor frees a stranded one |
| MeshRuns.RouteThenSettle | server/src/commstack_siot_mesh_support.cpp:1587-1894 | a route planned and every update acknowledged, with no device stranded: by the tables the devices then have, a packet for the target arrives exactly if ArrivesWhen says so |
| Resend.ResendList.FindLongest | server/src/commstack_siot_mesh_support.cpp:837-870 | the scan finds the task due longest, the first in the list among equals, or that none is due |
| Resend.ResendList.GetResendTask | server/src/commstack_siot_mesh_support.cpp:837-937 | that task is sent; a repeated one with sends left is rearmed at its place, one send less and one period from now, any other leaves the list; nothing else changes |
| Resend.ResendList.AddTask | server/src/commstack_siot_mesh_support.cpp:778-835 | one task joins at the end: a repeated packet with the given number of sends, due after one period; one from Santa to be sent once, at once |
| Resend.ResendList.Drain | server/src/commstack_siot_mesh_support.cpp:837-937 | at one clock value every due task is sent exactly once, by due time and then list order, and then none is due |
| Resend.SentPays | server/src/commstack_siot_mesh_support.cpp:837-937 | one send pays off one of the sends owed to its packet and to no other |
| Resend.ResendList.Remove | server/src/commstack_siot_mesh_support.cpp:939-993 | the repeated packets of the given checksum, or to the given device, leave the list; every other task stays, in order |
| Resend.ResendList.Run | server/src/commstack_siot_mesh_support.cpp:778-993 | over any run, every packet has been sent as often as its additions say, less what is still to come and what removals forgave, which is exactly the tasks each removal selects of the list it meets; nothing is forgiven a packet no event removes. A repeated packet that was not on the list is not sent before a period has passed since an addition, and if it is added once its n-th send comes n periods or more after that |
| Fletcher.Update | server/src/commstack_siot_mesh_support.cpp:100-119 | eight-bit sums with end-around carry are sums modulo 255 |
| Fletcher.SumOfSumsIsWeighted | server/src/commstack_siot_mesh_support.cpp:100-119 | the running sum of sums weights every byte by its distance from the end |
| Fletcher.OneByteChanged | server/src/commstack_siot_mesh_support.cpp:100-119 | a single changed byte goes unnoticed if and only if it turns 0 into 255 or back |
| Fletcher.NeighboursSwapped | server/src/commstack_siot_mesh_support.cpp:100-119 | two neighbouring bytes swapped go unnoticed if and only if they are equal modulo 255 |
| Fletcher.TableChecksum | server/src/commstack_siot_mesh_support.cpp:121-162 | the loops over both tables compute the checksum of their bytes, each in its place |
| Fletcher.TableBytesAt | server/src/commstack_siot_mesh_support.cpp:121-162 | those bytes by position: the number of routes, target and link id of each, the number of links, id, bus and next hop of each, all with the low byte first, four bytes a route and six a link |
| Fletcher.OneRouteOneLink | server/src/commstack_siot_mesh_support.cpp:121-162 | the fourteen bytes and the checksum of tables with one route and one link |
| Fletcher.IntraBusUnseen | server/src/commstack_siot_mesh_support.cpp:121-162 | if and only if, for tables of 16-bit fields: the checksum's input is the same, when they agree in all but intra-bus ids |
| Fletcher.OneChecksumTwoTables | server/src/commstack_siot_mesh_support.cpp:129-143 | two different well-formed tables with one checksum |
| Comm.HeaderRead | server/src/commstack_commlayer.c:260-293 | the five header bytes at the start of a stream of frames give back the first packet's source, address and size |
| Comm.Connection.TryGet | server/src/commstack_commlayer.c:192-224 | one receive call takes the next bytes of the stream, as many as it finds, there are and are asked for, and reports pending, complete or failed |
| Comm.Connection.GetBytes | server/src/commstack_commlayer.c:260-293 | if and only if, from the stream and the calls before: it succeeds exactly if the stream has the bytes and some first calls, none of them failing, find bytes and find enough; then it made the shortest such calls and has exactly the next bytes, however they were chopped up; otherwise it went on to the first failing call, or to the end of the schedule |
| Comm.Connection.GetPacket | server/src/commstack_commlayer.c:260-308 | reading inverts framing, if and only if the calls bring the header and then the bytes: the first packet comes out, the frames of the others are left and no call beyond is made; otherwise receiving was interrupted |
| Comm.SteadyBringsAll | server/src/commstack_commlayer.c:192-308 | however the stream is chopped up, if no call fails and as many calls find bytes as the packets have, all packets come |
| Comm.ComesInTwoCalls | server/src/commstack_commlayer.c:192-308 | a packet that comes by two calls, the one its header and the other its byte |
| Comm.SendWithinMaster | server/src/commstack_commlayer.c:331-374 | what is sent is the frame of the handle's request, exactly if the header fits into the free bytes and the old response; the handle ends up empty, every other handle is untouched |
| Comm.CommLayer.TakeOldest | server/src/commstack_commlayer_helper.cpp:100-120 | the oldest packet leaves the queue |
| Comm.CommLayer.TryGetMessage | server/src/commstack_commlayer.c:310-329 | delivers the oldest packet put off, else the next of the stream, exactly if one was put off or comes |
| Comm.CommLayer.SyncRequest | server/src/commstack_commlayer.c:477-511 | returns the first packet with the status of a reply and this request's id, exactly if it is among those that come; exactly the packets before it are put off, in order, behind those put off already |
| Comm.Run | server/src/commstack_commlayer.c:310-511 | over every run, packets delivered followed by the queue are those read less the replies the requests returned, at most one a request, in order, the reply to the k-th request bearing the id before the run plus k, modulo 65536; with those still to come they are all that was sent. No more is read than the calls bring, and a run that asks for packets often enough reads and delivers all they bring |

## Left out

- The variants of the memory manager other than the compiled one (ordered handles on, old approach off), the debug statistics and the run-time sanity check, whose condition is the invariant.
- HeapModule.Heap.Acquire: acquired handles' records are entries of the handle table, their bytes charged to the storage handle's block; that they lie inside the heap they describe, and that pointers to them are kept while their block moves, is not modelled. The sequel of a failed extension of the storage block is the outcome `StorageFault`.
- HeapModule.Heap.Prepend: for an acquired handle the program keeps the address of the handle's record from before it moves blocks (line 1074) and reads the block's address through it at the end; when compaction to the left has moved the storage block meanwhile, that is a stale address. The model returns the block's true address.
- HeapModule.Heap.PrependBytes: writes to that true address, for acquired handles too.
- HeapModule.Heap.NudgeLeft: likewise when the block moved is the storage block, whose records include the new one.
- HeapModule.Heap.WriteBlock: answers false where the program would copy to a null pointer.
- HeapModule.Heap.WritePrependBlock: answers without the bytes where the program would copy all the same: without room, and for acquired handles, where the model has not even begun.
- HeapModule.Heap.TotalFreeableAtRight: the source's two loops, over fixed and over acquired handles, are one loop over the joint table; likewise on the left and in the compactions.
- The array's size is a parameter below 65536; addresses are offsets into the array.
- Packets.EncodeAndAppend: the bytes written before a code turns out too long for the buffer are not modelled.
- `zepto_parse_encoded_uint32`, whose shifts do not agree with the number from 2^16 on, the remaining parser and writer wrappers, which only forward, and `zepto_memman_trim_locally_generated_data_at_right` for sizes beyond the response.
- Devices' other fields (bus lists, retransmitter flags, times) and the packets that carry updates; the receiving parser is not part of this model.
- Affected routes of updates in flight: the program never fills them in, so they are empty here, and the question which routes are being updated is left out.
- MeshRootModule.MeshRoot.RouteAdded: the walk is observed for a given number of hops, because next hops read may lead in a circle for ever; a device that does not exist or an index past the link table ends it as `Undefined`. The intra-bus id of a new link is not initialised in the program and is a parameter here, as is the constant for an undefined link id. Link tables have fewer than 65536 entries.
- MeshRuns.Run: `Replan` stands for the effect that losing a link or a device is meant to have on planned tables; the two functions that do it erase while indexing or scan without advancing, and are not modelled themselves.
- Best-route choice, last-hop statistics, packets from Santa beyond their place in the resend list, and the Bluetooth section.
- Resend.ResendList.Run: clock values are natural numbers that do not wrap; the time to the next event is left out.
- Comm.Connection.TryGet: sockets are a byte sequence and a schedule saying what each call finds. After a failed call, or when the schedule ends, the model reads no more; the program would queue an empty packet of status 0 and go on.
- Comm.Connection.GetPacket: packets carry at most 80 bytes and are read into a buffer of their own instead of the handle's memory; longer payloads, which the program does not expect, are not modelled.
- Waiting for events, the time master, command line, persistent storage and everything behind the main loop's dispatch.
