# Dimemas: switch network, memory stream and trace translator

A Dafny model of three stateful parts of Dimemas, with proofs of what each of them is for. `dafny verify
dfyconfig.toml` checks the whole project.

**The EEE switch network** (`Simulator/eee_model`). `configure_switches` wires a multi-level fat tree of duplex links
with div/mod index arithmetic; `eee_network`, `link_transmit` and `nw_switch` move one message per call up to the
lowest common subtree of its two nodes and down again, reserving links that fall asleep and wake up. `EeeShape` holds
the level sizes, `EeeWiring` the construction and its self-test, `EeeRouting` one call (the class `Thread` next to the
function `Step` that specifies it), `EeeRoutes` the route of a message, `EeeRuns` the runs of the event loop over any
set of messages, `EeeHistory` and `EeeEnergy` what the reservations of a run look like, `EeePower` the power automaton
of a link, `EeeExits` the error exits in any state, `EeeTheorems` the results for every run, `EeeSimulation` the loop
itself on objects. `EeeTheorems.EveryRun` is the main result: from a freshly configured network no run takes an error
exit, its length is bounded, no link direction serves two messages at once, every wake-up charge is what the link's
automaton asks for, a message whose route shares no link direction with another never waits, and when no call is due
every message has crossed exactly the links of its route and hopped through exactly its switches, in the time of
virtual cut-through plus its wake-ups and its waits. `EeeSimulation.Simulate` does all this on objects, with the
program's own sizes and transfer times.

**The memory stream** (`common_utilities/open_memstream.c`), module `MemStream`: a growing buffer that overwrites the
byte at the current position with NUL and keeps the real one aside. Every session of non-empty writes and seeks is the
same session on a plain file, and its reallocations copy a bounded number of bytes. It implements `open_memstream()`
of POSIX.1-2008.

**The translator from Paraver to Dimemas** (`prv2dim`). `PrvSplit` turns communications into four endpoints each and
sorts them, `PrvMerge` merges them with the trace, `PrvDispatch` hands the merged records to their threads, `PrvQueue`
batches the records of one time, `PrvThread` translates them (`PrvTranslator` does the same to the fields of an
object). `PrvGiven` says what a thread is given and `PrvConserve` follows the communications through all of this.
`PrvThreadLaws`, `PrvWaits`, `PrvCollective` and `PrvThreadTime` say what holds of the output of every run;
`PrvAppend`, `PrvEndpoints` and `PrvTold` tell the output from the records, `PrvNoops` and `PrvFlags` the
no-operations and the flags, and `PrvNestedWaits`, over `PrvWatch`, tells from the records which wait calls wait
twice. `PrvPending` follows the counters that threads share, `PrvIndex` is the output file with its patched header and
its index of offsets, and `PrvHeader` reads that header.

## Model

| member | source | states |
|---|---|---|
| `EeeShape.NodesUnderCovers` | Simulator/eee_model/eee_communic.c:584-588 | the product of the fan-ins up to a level is the number of nodes below one of its switches: the subtrees of a level partition the nodes, the top one holds them all |
| `EeeShape.Meet` | Simulator/eee_model/eee_communic.c:589-602 | the level of the turn: two nodes share a subtree at a level exactly from there on |
| `EeeShape.SubtreeParent` | Simulator/eee_model/eee_communic.c:658-665 | the subtree of a node one level up is the subtree below it divided by the fan-in |
| `EeeShape.CodeShapeAdmissible` | Simulator/eee_model/eee_configuration.c:159-170 | the hard-coded level sizes form a regular tree exactly when 16 divides the positive number of nodes |
| `EeeWiring.PartnerInvolution` | Simulator/eee_model/eee_configuration.c:276-393 | in a tree every cable ends inside the network, one level away, on the other side of a switch, and its two ends name each other; only the links to nodes have no partner |
| `EeeWiring.PartnerBijection` | Simulator/eee_model/eee_configuration.c:276-393 | every in-link above the edge is the partner of exactly one out-link |
| `EeeWiring.WiringInRangeIffTree` | Simulator/eee_model/eee_configuration.c:184-221 | all partner indices are in range exactly when each level below the top divides the one beneath it |
| `EeeWiring.NodesAttachedIffEven` | Simulator/eee_model/eee_communic.c:166-169 | every node has an edge link that exists exactly when the edge switches share the nodes evenly |
| `EeeWiring.OutPartnerIndex` | Simulator/eee_model/eee_configuration.c:357-390 | the running index over the out-links of a level selects the in-link at the other end of the cable |
| `EeeWiring.SwitchFabric.CountLinks` | Simulator/eee_model/eee_configuration.c:187-221 | the link counts of every switch, as the shape defines them |
| `EeeWiring.SwitchFabric.WireInLink` | Simulator/eee_model/eee_configuration.c:283-324 | one in-link: its own address, idle, and its partner, from the index counted across the switches of the level |
| `EeeWiring.SwitchFabric.WireInLinks` | Simulator/eee_model/eee_configuration.c:276-328 | exactly the in-links have been written, each once and with its partner |
| `EeeWiring.SwitchFabric.WireOutLinks` | Simulator/eee_model/eee_configuration.c:335-393 | the same for the out-links; the exit at the last level is not taken |
| `EeeWiring.SwitchFabric.SelfTest` | Simulator/eee_model/eee_configuration.c:402-482 | succeeds if and only if every link is the partner of its partner |
| `EeeWiring.SwitchFabric.Configure` | Simulator/eee_model/eee_configuration.c:155-482 | on every tree the whole network is built and the self-test passes |
| `EeeRouting.Thread.AwakeAfter` | Simulator/eee_model/eee_communic.c:205-248 | how long a link needs before it can carry data, as the branches of `link_transmit` compute it |
| `EeeRouting.Thread.ReserveFromNode` | Simulator/eee_model/eee_communic.c:198-290 | the edge link going in: reserved and stamped for header, payload and wake-up, or untouched with the wait until it is free |
| `EeeRouting.Thread.ReserveOutward` | Simulator/eee_model/eee_communic.c:296-494 | the same for the outward direction of an out-link going up and of an in-link going down |
| `EeeRouting.Thread.Conclude` | Simulator/eee_model/eee_communic.c:506-549 | level, delivery and phase flags after an attempt, with its error exit |
| `EeeRouting.Thread.LinkTransmit` | Simulator/eee_model/eee_communic.c:104-553 | the message and the links afterwards are those of the specified transmission, fault or not |
| `EeeRouting.Thread.ChooseDirection` | Simulator/eee_model/eee_communic.c:584-602 | the turn at a common subtree, and the exit if a descending message meets one |
| `EeeRouting.Thread.NwSwitch` | Simulator/eee_model/eee_communic.c:556-710 | one hop, with all five error exits, as specified |
| `EeeRouting.Thread.EeeNetwork` | Simulator/eee_model/eee_communic.c:712-744 | one call of the network: object and links end as the function `Step` says |
| `EeeRoutes.RouteEndsAtReceiver` | Simulator/eee_model/eee_communic.c:653-656 | the last transmission of the route uses link r mod k of level-0 switch r div k |
| `EeeRoutes.RoutePortsDistinct` | Simulator/eee_model/eee_communic.c:164-170 | no route uses a link direction twice |
| `EeeRoutes.UpCable` | Simulator/eee_model/eee_communic.c:627-641 | the out-link chosen by the receiver's remainder leads to the next larger subtree of the sender, at the top to switch r mod N_out |
| `EeeRoutes.DownCable` | Simulator/eee_model/eee_communic.c:657-682 | the in-link chosen going down leads to the switch of the smaller subtree that holds the receiver |
| `EeeRoutes.TurnsAtMeet` | Simulator/eee_model/eee_communic.c:592-602 | climbing messages turn at the lowest common subtree and nowhere else; descending ones never meet the exit |
| `EeeRoutes.StepFollowsRoute` | Simulator/eee_model/eee_communic.c:712-744 | one call on a configured network takes no error exit and is the next transmission of the route, its next hop, or a positive wait that ends when the link is free |
| `EeeRuns.FireMeasure` | Simulator/main.cpp:666-679 | each call lowers the steps left over all messages, or keeps them and lowers the number of messages that a busy link still awaits |
| `EeeRuns.RunsAreSafeAndFinite` | Simulator/main.cpp:666-679 | no run of the event loop takes an error exit, and none is longer than its initial measure allows |
| `EeeExits.CallExits` | Simulator/eee_model/eee_communic.c:104-744 | which exit a call takes, for a message in any state on a configured network: sent already, no phase left, turning twice, going down from a switch that is not above the receiver, no direction, a phase flag missing; and in every other state none |
| `EeeExits.HopExits` | Simulator/eee_model/eee_communic.c:556-710 | the same for a hop: the turn is an error exactly at a common subtree below the top reached without climbing, the switch test fails exactly below the top at a switch other than the receiver's |
| `EeeHistory.FireLasts` | Simulator/eee_model/eee_communic.c:238-261 | every reservation lasts for its wake-up, the header and the whole message, at the speed of its link and direction |
| `EeePower.ElapseAdditive` | Simulator/eee_model/eee_communic.c:205-228 | letting time pass in the power automaton (busy, idle, falling asleep, asleep) twice is letting it pass once |
| `EeePower.StampsTrackElapse` | Simulator/eee_model/eee_communic.c:209-228 | the two time stamps of a link direction stand for the automaton at every later moment |
| `EeePower.WakeDelayIsWait` | Simulator/eee_model/eee_communic.c:214-222 | the delay charged is exactly what the automaton still needs |
| `EeePower.StampsTrackUse` | Simulator/eee_model/eee_communic.c:238-261 | the stamps written stand for the automaton after the use; off-time is next free time plus T_pdt |
| `EeePower.OffLinkStartsLate` | Simulator/eee_model/eee_communic.c:243-255 | a link found off starts no earlier than off-time plus T_s plus T_w |
| `EeeHistory.FireExclusive` | Simulator/eee_model/eee_communic.c:198-203 | a call keeps the reservations of every link direction disjoint |
| `EeeHistory.RefusedWaitsForAnother` | Simulator/eee_model/eee_communic.c:277-289 | a refused message waits a positive time for the end of a reservation that another message holds, so the zero-wait exit is dead |
| `EeeHistory.FireOnRoute` | Simulator/eee_model/eee_communic.c:506-512 | in every reachable world the directions a message has crossed are the beginning of its route, in order |
| `EeeHistory.DeliveredOnTime` | Simulator/eee_model/eee_communic.c:506-530 | a delivered message took one header per link, the payload once, the hop latencies of levels 0..m..0, its wake-ups and its waits |
| `EeeEnergy.FireTracks` | Simulator/eee_model/eee_communic.c:205-261 | along a run the stamps of every direction are those of its automaton replayed over all reservations, and every charge is its wait |
| `EeeTheorems.EveryRun` | Simulator/eee_model/eee_communic.c:104-744 | all of it for every run from a configured network: safety, length, mutual exclusion, charges, the length of every reservation, no waiting of a message whose route is disjoint from the routes of all others, and delivery of every message by exactly 2m+2 transmissions and 2m+1 hops, at the links and switches of its route, and on time |
| `EeeTheorems.SomeoneMayFire` | Simulator/main.cpp:666-679 | as long as a message is under way the event loop has a call to make |
| `EeeHistory.FireOnHops` | Simulator/eee_model/eee_communic.c:697-704 | in every reachable world the switches a message has hopped through are the beginning of its route, level by level 0..m..0, in order |
| `EeeSimulation.TransferTimeNonNegative` | Simulator/eee_model/eee_communic.c:61-98 | latency plus size over bandwidth is a delay the network can use, in both directions and for infinite bandwidth |
| `EeeSimulation.TransferTimeIsLatencyAndSize` | Simulator/eee_model/eee_communic.c:61-98 | infinite bandwidth leaves the latency; else the time on top of it times the bandwidth is the size, scaled by 10^9 going up and by 10^6 going down |
| `EeeSimulation.RunToCompletion` | Simulator/main.cpp:666-679 | calling the objects in time order terminates with every message delivered, along some run of the model |
| `EeeSimulation.ConfigOfValid` | Simulator/eee_model/eee_communic.c:61-98 | the transfer times that the program computes are delays the network can use, for every latency and bandwidth of the configuration |
| `EeeSimulation.Simulate` | Simulator/main.cpp:666-679 | with the program's own level sizes and transfer times, for every positive multiple of 16 nodes and any messages: build the network, call the threads in time order, and every message is delivered as a run of the model says |
| `MemStream.CodeWriteIsPlainIff` | common_utilities/open_memstream.c:79-94 | `mem_write` is a file write exactly when it writes something, or is at the end, or on a NUL byte |
| `MemStream.EmptyWriteLosesByte` | common_utilities/open_memstream.c:90-92 | an empty write in the middle overwrites a byte of the file |
| `MemStream.PlainWriteReadsBack` | common_utilities/open_memstream.c:79-89 | after a write the file holds its bytes, the old ones around them, and NUL in a gap |
| `MemStream.SeekLeads` | common_utilities/open_memstream.c:97-110 | a seek leads to its offset from the start, from the position or from the end, and keeps the content; out of range it stays |
| `MemStream.AppendsAtEnd` | common_utilities/open_memstream.c:97-135 | a write behind a seek to the end appends its bytes to the old content |
| `MemStream.SeeksAddUp` | common_utilities/open_memstream.c:97-135 | a seek by nothing changes nothing, and a relative seek behind any seek is one seek by the sum |
| `MemStream.StoredIsWritten` | common_utilities/open_memstream.c:81-84 | clearing the gap and copying turns the buffer of a file into that of the written file |
| `MemStream.Stream.constructor` | common_utilities/open_memstream.c:164-188 | a new stream is the empty file, with room for its NUL |
| `MemStream.Stream.NewSize` | common_utilities/open_memstream.c:70-72 | the new size is half as much again, or what is needed; once three times the old size wraps it is exactly what is needed |
| `MemStream.CopiesBounded` | common_utilities/open_memstream.c:64-78 | over any sequence of reallocations that start below a third of all memory, the copies together stay below three capacities |
| `MemStream.CopiesUnbounded` | common_utilities/open_memstream.c:70-72 | from any capacity above that, four writes that each need one byte more break the bound |
| `MemStream.CopyTooMuch` | common_utilities/open_memstream.c:64-78 | a session on a new stream that breaks it: a byte at a third of all memory, then four times a byte at the end of the buffer |
| `MemStream.Stream.Write` | common_utilities/open_memstream.c:52-95 | result, file and `*len` for each outcome: too big, out of memory, written; the capacity grows and the copies count as `Grown` has it |
| `MemStream.Stream.Seek` | common_utilities/open_memstream.c:97-135 | the file afterwards and the result; a failed seek changes neither position, length nor buffer |
| `MemStream.Append` | common_utilities/open_memstream.c:52-135 | on an object: seek to the end and write appends, or leaves the content |
| `MemStream.Tell` | common_utilities/open_memstream.c:97-135 | on an object: a seek by nothing returns the position and changes nothing |
| `MemStream.SeekTwice` | common_utilities/open_memstream.c:97-135 | on an object: two relative seeks in range lead where one by their sum does |
| `MemStream.Stream.Close` | common_utilities/open_memstream.c:137-149 | the user's buffer holds the content up to `*len`, and `buf[*len]` is NUL |
| `MemStream.Open` | common_utilities/open_memstream.c:151-190 | a stream results exactly when variables, memory and registration are there |
| `MemStream.Perform` | common_utilities/open_memstream.c:52-135 | every session of non-empty writes and seeks refines a plain file and reports truly; `*len` is min(pos, eof); the capacity is linear in the furthest end, and all copies together are at most three capacities unless a reallocation started from a third of all memory |
| `PrvSplit.InBlockIsLexicographic` | prv2dim/TranslatorRecord.hpp:347-388 | the branches of the comparison are the order by time, kind (LR, LS, PS, PR) and trace order |
| `PrvSplit.InBlockStrictOrder` | prv2dim/TranslatorRecord.hpp:347-388 | irreflexive, asymmetric and transitive on endpoints |
| `PrvSplit.SplitCounts` | prv2dim/ParaverTraceTranslator.cpp:369-389 | n communications give exactly 4n endpoints |
| `PrvSplit.SplitAllEndpoints` | prv2dim/TranslatorRecord.cpp:67-128 | each communication comes out with all four kinds, send kinds owned by its source and receive kinds by its destination |
| `PrvSplit.SplitOnlyEndpoints` | prv2dim/TranslatorRecord.cpp:203-232 | and nothing else comes out |
| `PrvSplit.SplitDistinguishable` | prv2dim/TranslatorRecord.hpp:347-388 | the comparison tells all endpoints of a trace apart |
| `PrvSplit.SplitCommunications` | prv2dim/ParaverTraceTranslator.cpp:203-440 | the result is sorted and a permutation of the endpoints |
| `PrvSplit.SplitDetermined` | prv2dim/ParaverTraceTranslator.cpp:437 | that contract leaves one result only |
| `PrvMerge.ParseEvent` | prv2dim/ParaverTraceParser.cpp:528-600 | exactly which lines are refused and why; an event that is returned has a pair, and its pairs are the tokens two by two |
| `PrvMerge.MergeConserves` | prv2dim/ParaverTraceTranslator.cpp:1562-1667 | both inputs come out once and in their own order; the endpoints complete, and the trace too when every event has a pair |
| `PrvMerge.EmptyEventLost` | prv2dim/ParaverTraceTranslator.cpp:1654-1659 | without the guarantee of `ParseEvent` a record can be lost |
| `PrvMerge.MergeSorted` | prv2dim/ParaverTraceTranslator.cpp:1562-1667 | two sorted inputs give a sorted output |
| `PrvMerge.BlockEndAfterEndpoints` | prv2dim/ParaverTraceTranslator.cpp:1642-1647 | an event with an MPI type and value 0 comes out only after every endpoint that is not later |
| `PrvMerge.BeforeIsLeft` | prv2dim/ParaverTraceTranslator.cpp:1562-1667 | how many endpoints stand before each trace record in the output, from the records and endpoints before it alone, with "due" spelled out on times, tasks and the first pair |
| `PrvMerge.EndpointFirstIff` | prv2dim/ParaverTraceTranslator.cpp:1622-1666 | an endpoint comes out before a record of its task and time that ends no block exactly when an earlier record of that time holds the trace up for longer: a block end, or a record of another task that met no endpoint of its own on the way |
| `PrvMerge.RecordBeforeItsEndpoints` | prv2dim/ParaverTraceTranslator.cpp:1635-1666 | where only records of its task stand before it at its time, and none ends a block, a record goes before all of its endpoints of that time |
| `PrvMerge.EndpointBeforeItsCall` | prv2dim/ParaverTraceTranslator.cpp:1623-1628 | a state of another task at the same time is enough to let an endpoint out before the beginning of its call |
| `PrvMerge.Merger.SelectNextRecord` | prv2dim/ParaverTraceTranslator.cpp:1562-1667 | each call returns the next record of the merge and moves the cursors past it, or reports the broken trace |
| `PrvMerge.Merger.SelectAll` | prv2dim/ParaverTraceTranslator.cpp:843-977 | the calls together return the merge, or a prefix of it and an error |
| `PrvDispatch.DispatchOne` | prv2dim/ParaverTraceTranslator.cpp:875-974 | what one selected record gives to its thread: events taken apart, idle states and gaps as idle blocks |
| `PrvDispatch.DispatchRecords` | prv2dim/ParaverTraceTranslator.cpp:853-986 | every thread gets exactly its own records, in order; records of unknown threads are only counted |
| `PrvDispatch.OrderedIffQuiet` | prv2dim/ParaverTraceTranslator.cpp:600-648 | a thread is given its records in time order exactly when nothing happens inside its idle states |
| `PrvDispatch.ThreadDropsIff` | prv2dim/ParaverTraceTranslator.cpp:926-957 | a record of a thread is dropped exactly when something happens inside one of its idle states |
| `PrvDispatch.ThreadTranslatedOnceInOrder` | prv2dim/ParaverTraceTranslator.cpp:843-1069 | from the sorted inputs through merge, dispatch and queue to the last flush: everything is translated once and in time order |
| `PrvConserve.EndpointsReachTheirThread` | prv2dim/ParaverTraceTranslator.cpp:843-1069 | from the communications of the trace through split, sort, merge, dispatch and queue: the communication records a thread translates, with those it drops, are as a multiset exactly the logical and physical sends of the communications it is the source of and the receives of those it is the destination of, each with time, other side, size, tag and number; it drops none when nothing happens inside its idle states |
| `PrvConserve.CommunicationArrives` | prv2dim/TranslatorRecord.cpp:203-232 | each communication of the trace is translated on both sides: its two sends by the thread of its source with the destination as partner, its two receives by the thread of its destination with the source as partner |
| `PrvGiven.GivenByPosition` | prv2dim/ParaverTraceTranslator.cpp:600-648 | what a thread is given, record by record: one event per pair with its type and value, a communication per endpoint, and blocks (0,1), (0,0) over exactly its idle states and the gaps between where a state reaches and the next record |
| `PrvGiven.ThreadIsGivenItsOwn` | prv2dim/ParaverTraceTranslator.cpp:843-986 | these records are those of the trace and those of the endpoints that have its task and thread, each in their order |
| `PrvConserve.GivenComms` | prv2dim/ParaverTraceTranslator.cpp:963-974 | a thread is given the communication records of its own endpoints and no others, in the order of the merge |
| `PrvQueue.BatchesAreSorted` | prv2dim/TaskTranslationInfo.cpp:441-470 | every batch is a stretch of what was pushed and not dropped, in order, through the sort for the place where the thread was; all stretches together are everything |
| `PrvTold.SortFollowsRecords` | prv2dim/TaskTranslationInfo.cpp:456-476 | that is the sort for blocks exactly if, by the records before the batch, an MPI call is open |
| `PrvQueue.FinishedInBatches` | prv2dim/TaskTranslationInfo.cpp:280-330 | records that come in batches of one time, later and later, are translated in just these batches |
| `PrvQueue.PushedIsKept` | prv2dim/TaskTranslationInfo.cpp:280-330 | pushed records are the translated, the stacked and the dropped ones together, for any input and any sort |
| `PrvQueue.AlwaysBatched` | prv2dim/TaskTranslationInfo.cpp:280-330 | the stack and every batch hold a single time; the disorder flag is set exactly when something was dropped |
| `PrvQueue.DroppedIff` | prv2dim/TaskTranslationInfo.cpp:321-324 | nothing is dropped exactly when every record is as late as the one before it, except behind a block end that emptied the stack |
| `PrvQueue.NothingLost` | prv2dim/TaskTranslationInfo.cpp:333-357 | after the last flush only dropped records are untranslated |
| `PrvQueue.TranslatedOnceInOrder` | prv2dim/TaskTranslationInfo.cpp:280-357 | records in time order are all translated once, in time order, and none is dropped |
| `PrvThreadLaws.OutputReadable` | prv2dim/TaskTranslationInfo.cpp:1133-1403 | every output of every run can be read: ends match beginnings, closed MPI blocks hold something, a collective wait stands at the end of a wait block, and there if and only if one is in flight and no point-to-point wait was read since the last wait block began; what the reader has open is what the translator has stacked |
| `PrvThreadLaws.ClosedBlocksHoldSomething` | prv2dim/TaskTranslationInfo.cpp:1282-1305 | each end of an MPI block, nested or not, has its beginning, and between them a communication, collective or no-operation |
| `PrvThreadLaws.CollectivesMatchInOrder` | prv2dim/TaskTranslationInfo.cpp:1240-1266 | at every point of every output the collective waits are the first asynchronous collectives, in order and with all their fields |
| `PrvWaits.WaitTakesIff` | prv2dim/TaskTranslationInfo.cpp:1240-1266 | the end of a wait block takes a collective exactly when one is in flight and each point-to-point wait written so far has been overtaken by the beginning of another wait block |
| `PrvWaits.WaitsForBothIff` | prv2dim/TaskTranslationInfo.cpp:1196-1202 | in every run a wait block takes a collective after a point-to-point wait of its own exactly when, inside it and after every point-to-point wait, another wait block began, and a collective is in flight |
| `PrvNestedWaits.SomeWaitForBothIff` | prv2dim/TaskTranslationInfo.cpp:1196-1266 | in every run some wait block takes a collective after a point-to-point wait of its own exactly when, by the records alone, a wait call that received a message ends with a collective in flight and no message received by a wait call since the last wait call began |
| `PrvNestedWaits.UnnestedWaitsForOne` | prv2dim/TaskTranslationInfo.cpp:1196-1266 | when no wait call begins while another is open, no wait block with a point-to-point wait of its own takes a collective |
| `PrvNestedWaits.BatchPutsInFlight` | prv2dim/TaskTranslationInfo.cpp:2434-2456 | a batch puts a collective in flight exactly when its last collective call is asynchronous and a later event gives one of its fields |
| `PrvNestedWaits.NestedWaitTakesBoth` | prv2dim/TaskTranslationInfo.cpp:1196-1266 | the failing run, from the constructor through the queue, each time later than the last: two asynchronous collectives, then a wait call that receives a message and has another wait call inside |
| `PrvWatch.BothIsWatched` | prv2dim/TaskTranslationInfo.cpp:1240-1266 | one pass over an output finds out whether some block begin, point-to-point wait, collective wait and block end in it belong together |
| `PrvThreadLaws.BeforeEndKeeps` | prv2dim/TaskTranslationInfo.cpp:1209-1305 | what is written just before the end of a block leaves every open block with something in it, and the output readable |
| `PrvCollective.BatchWritesCollective` | prv2dim/TaskTranslationInfo.cpp:2350-2456 | a batch with a collective call ends by writing it, with the last value that each kind of event gave after the call and root if one said so; without any such event nothing is written |
| `PrvTold.OutputTold` | prv2dim/TaskTranslationInfo.cpp:581-1934 | in every run the output without collectives, their waits and no-operations is, record after record: a burst for the time between marks, block begin and end, event or endpoint with the fields of the record, the five events of a pseudo communication, and the barrier at the end of call 31 |
| `PrvNoops.NoopIff` | prv2dim/TaskTranslationInfo.cpp:1282-1305 | in every output a no-operation stands before the end of an MPI block exactly when, since the last MPI block began, there is no barrier and no point-to-point record other than a wait inside a sending call; and it stands nowhere else |
| `PrvFlags.FlagsIff` | prv2dim/TaskTranslationInfo.cpp:1410-1934 | the flags at the end are up exactly if some record was a communication outside of all calls, one that the call around it cannot have, a message received while waiting for several, or an end of MPI_Init with its barrier |
| `PrvEndpoints.EndpointsWritten` | prv2dim/TaskTranslationInfo.cpp:1410-1934 | in every run the point-to-point records of the output are, one after the other, those of the endpoints among the records, each as the MPI call that is open around it by the records has it |
| `PrvEndpoints.SendsAndReceivesWritten` | prv2dim/TaskTranslationInfo.cpp:1466-1934 | in every run the output holds as many sends as the records hold logical sends inside sending calls, and so for receives |
| `PrvThreadTime.TimeIsAccounted` | prv2dim/TaskTranslationInfo.cpp:633-649 | for all records in time order, nested or not: the time in bursts and in MPI blocks is the time that has passed plus the time that bursts inside MPI blocks write again; the last block end is never ahead of the records, so no burst wraps around |
| `PrvThreadTime.TimeIsConservedIff` | prv2dim/TaskTranslationInfo.cpp:1164-1173 | time is conserved exactly when nothing is written again: no MPI block nested and no user block event inside an MPI block later than the last mark |
| `PrvThreadTime.FirstTime` | prv2dim/TaskTranslationInfo.cpp:161-240 | the time before the start of a thread is in a burst when it begins idle, and is left out otherwise |
| `PrvThreadTime.TimeIsConserved` | prv2dim/TaskTranslationInfo.cpp:1277-1390 | in particular with MPI blocks that are not nested and hold no user block event |
| `PrvThreadTime.NestedBlocksCountTwice` | prv2dim/TaskTranslationInfo.cpp:1164-1173 | with one call inside another the time from the start up to the inner one is in the bursts twice |
| `PrvTranslator.Translator.constructor` | prv2dim/TaskTranslationInfo.cpp:61-265 | the first records and the initial fields |
| `PrvTranslator.Translator.BlockEvent` | prv2dim/TaskTranslationInfo.cpp:619-1403 | the fields after an MPI, user or generic event |
| `PrvTranslator.Translator.CommToDimemas` | prv2dim/TaskTranslationInfo.cpp:1410-1934 | the fields after a communication endpoint, for each call it may be in |
| `PrvTranslator.Translator.Collect` | prv2dim/TaskTranslationInfo.cpp:581-607 | the collective being gathered from events |
| `PrvTranslator.Translator.FinalizeGlobalOp` | prv2dim/TaskTranslationInfo.cpp:2434-2456 | the collective at the end of a batch, written only with a field, and remembered if asynchronous |
| `PrvTranslator.Translator.ReorderAndFlush` | prv2dim/TaskTranslationInfo.cpp:441-515 | the sorted stack is translated as one batch and emptied |
| `PrvTranslator.Translator.PushRecord` | prv2dim/TaskTranslationInfo.cpp:280-330 | the four cases of a pushed record |
| `PrvTranslator.TranslateThread` | prv2dim/TaskTranslationInfo.cpp:280-357 | a whole thread on objects: its output is the specified one, readable, with collectives matched in order, and the disorder flag is exact |
| `PrvPending.PendingIsAllSurplus` | prv2dim/TaskTranslationInfo.cpp:1493-1498 | however the threads take turns, pending sends less pending receives are the sends less the receives in the outputs of all threads |
| `PrvPending.PairLeavesExcess` | prv2dim/TaskTranslationInfo.cpp:1493-1545 | two threads that, by their outputs, talk to each other only: in every interleaving exactly the sends of each that the other has not received, or the receives that the other has not sent, are pending; matched traffic leaves nothing |
| `PrvPending.CountersFit` | prv2dim/TaskTranslationInfo.cpp:1538-1545 | after any interleaving no counter is negative, and none exceeds the number of point-to-point records in the outputs of all threads |
| `PrvPending.Counters.Update` | prv2dim/TaskTranslationInfo.cpp:1620-1627 | the counters after one send or receive |
| `PrvIndex.HeaderFitsIff` | prv2dim/ParaverTraceTranslator.cpp:443-598 | the rewritten header is as long as the placeholder exactly for positions below 10^15 |
| `PrvHeader.HeaderReads` | prv2dim/ParaverTraceTranslator.cpp:443-598 | any reader that takes numbers and skips marks finds in the definitive header, in order, the position of the index, the tasks, the threads of each, the communicators, and which tasks are accelerators |
| `PrvHeader.NumbersInReads` | prv2dim/ParaverTraceTranslator.cpp:443-598 | taking every run of digits as a number is such a reader |
| `PrvHeader.NameReads` | prv2dim/ParaverTraceTranslator.cpp:470-476 | the header begins with the name of the trace in quotes |
| `PrvIndex.ParseIndexOf` | prv2dim/ParaverTraceTranslator.cpp:1208-1260 | reading the index, line marker and task number included, gives back the offsets it was written from |
| `PrvIndex.DecimalRoundTrip` | prv2dim/ParaverTraceTranslator.cpp:1208-1260 | a printed number reads as itself |
| `PrvIndex.TraceFile.WriteHeader` | prv2dim/ParaverTraceTranslator.cpp:443-598 | the header line at the current position with a placeholder, or over the start with the position |
| `PrvIndex.TraceFile.Merge` | prv2dim/TaskTranslationInfo.cpp:359-435 | copying in blocks appends exactly the stream |
| `PrvIndex.TraceFile.MergeAll` | prv2dim/ParaverTraceTranslator.cpp:1071-1122 | all streams appended, and the position where each begins |
| `PrvIndex.WriteTrace` | prv2dim/ParaverTraceTranslator.cpp:1208-1265 | below 10^15 the finished file reads back: the header leads to the first `s:` line of the index, each line is that of its task, and every offset in it leads to the stream of its thread |

## Where the code decides

- The comments on the level sizes speak of 8 switches in the middle and of 8, 16 or 32 at the edge; the code computes 4
  and a quarter of the nodes (`Simulator/eee_model/eee_configuration.c:162-170`). The model follows the code. Everything
  except `CodeShape` is proved for any number of levels from three on; the program sets only three sizes.
- A zero-length write in the middle of a memory stream loses a byte. `CodeWriteIsPlainIff` is the exact condition; the
  operations are modelled with the defect, sessions are stated for non-empty writes.
- Idle states become idle blocks when they begin, so a record of the same thread inside an idle state is dropped as
  disordered. `ThreadDropsIff` is the exact condition.
- A record older than the stack is dropped, but the same record is accepted right behind a block end that emptied the
  stack. `DroppedIff` is the exact condition.
- After an index position of 16 digits or more the unsigned padding wraps. `HeaderFitsIff` is the exact condition.
- A wait call inside a wait call clears the flag of the outer one, which then takes a collective although it has
  received a message. `SomeWaitForBothIff` is
  the exact condition on the records, `NestedWaitTakesBoth` a run, and without nested wait calls it does not happen
  (`UnnestedWaitsForOne`).
- A burst written inside an MPI block writes time again that the block already covers. `TimeIsConservedIff` is the exact
  condition, `TimeIsAccounted` the account with it.
- A record of another task, or a block end, can let an endpoint overtake the beginning of its own call at the same time.
  `EndpointFirstIff` is the exact condition.
- The memory stream grows by half only below a third of all memory; from there on by what is needed, and the copying
  bound is lost (`CopiesUnbounded`, and `CopyTooMuch` on an object).

## Assumptions

- A pointer to a link is the path to its cell, since the arrays are allocated once. Exits and indices outside of the
  arrays are faults in the model and proved unreachable.
- A fresh message has level -1 and neither of `link_transmit_done` and `eee_send_done` set; the caller calls the network
  again after exactly the returned delay, in time order. The code that sets these up is not part of this model.
- Times of the network are real numbers, without rounding. Times of traces are unsigned 64-bit numbers with wrap-around
  subtraction; bursts are in trace units, before the scaling to seconds.
- Memory for `realloc` and `malloc`, and the registration of a stream, are parameters. Files are texts, and writing to
  them succeeds.
- `OrderedIffQuiet` and `ThreadDropsIff` are about threads whose states follow one another and whose events have a pair.
- The two sorts of a batch are any functions that rearrange it. The tables of MPI calls and collectives are parameters;
  `PrvWaits`
  and `PrvNestedWaits` use that call 5 and no other is MPI_Wait.
- `pseudo_logic_recv_events` is never set by the constructor; the model lets it start at 0.

## Left out

- PrvSplit.SplitCommunications: traces written by the simulator itself, whose pseudo events become endpoints as well.
- PrvMerge.ParseEvent: the header match and the cutting into tokens are done by the C library and given as a flag and as numbers.
- PrvDispatch.DispatchOne: global operation records of the trace, whose synchronous flag the program never sets.
- PrvDispatch.DispatchRecords: the same records.
- PrvTranslator.Translator.constructor: the extra empty burst of accelerator kernel threads.
- PrvTranslator.Translator.BlockEvent: cluster, CUDA and OpenCL blocks, and the counters of probe and test calls.
- On-time statistics and `messages_in_flight` of the network: they count wake-ups and retries twice, and nothing reads them.
- Parsing of the EEE configuration file and its checks, and debug output.
- The no-space branch of `mem_seek`: dead where off_t and size_t both have 64 bits.
- `OutBlockComparison`, and comparisons that mix events with other records: they are no strict weak orders.
- Bursts taken from a hardware counter.
- Counting statistics of the translator (sends, receives, waits), and the wrap-around of its 32-bit counters beyond the bound of `CountersFit`.
- Warnings and summaries printed at the end of the translation, label and row files, command lines.
