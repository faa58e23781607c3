# Scale-up PIFO and ns-3 packet structures, verified

This project models two parts of the repository and proves properties of them.

**Schedulers.** `ScaleUpModel` is the Scale-up PIFO scheduler as a state machine on values: ranges, counters,
FIFOs, PIFOs, shadow list and delays, with every step reporting events. `ScaleUpScheduler` is the same scheduler
as a class with its fields and shared element objects updated in place, each method proved against the state
machine. `ScaleUpRoundRobin`, `ScaleUpAccounting`, `ScaleUpBorders`, `ScaleUpDelay` and `ScaleUpDrain` prove
what holds over whole runs; `ScaleUpArrival`, `ScaleUpDeparture` and `ScaleUpAdjust` say what each step does in
every reachable state, told from the log of the run. `Driver` is the loop that feeds it. `IdealPIFO` is the
reference scheduler. `StableQueue`, `RoundRanks` and `CalendarModel` are a stable priority queue keyed by weighted
fair rounds, as a state machine on values, and `CalendarCharges` tells what it charges and lets in from the calls
alone; `CalendarQueue` and `CalendarRuns` are the rotating calendar queue as a refinement of it. `GearboxSlots` and
`Gearbox` are the Gearbox scheduler.

**Packet structures.** `PacketTagTree`, `PacketTagSteps`, `PacketTagList` and `PacketTagRuns` are the packet tag
lists: reference-counted nodes in an explicit heap, so that following a pointer to a freed node would be an
error. `BufferMemory`, `Buffer` and `BufferRuns` are the copy-on-write buffers with their zero areas.
`ByteTagArrays`, `ByteTagLabels`, `ByteTagList`, `Packet` and `PacketRuns` are the byte tags and the order in
which packet operations call them. `MetadataCodec`, `MetadataLabels`, `MetadataMemory` and `Metadata` are the
list of headers that is flattened into an array of bytes, which packets share; `MetadataRejoin` cuts packets and
joins them again, `MetadataRuns` runs any sequence of operations on packets that share arrays, and
`MetadataSharing` says what an operation on one packet does to another. `NixVector` is the packed neighbour
indices, and `Ipv6Text`, `Ipv6Canonical`, `Ipv6Grammar` and `Ipv6Parse` are the text form of IPv6 addresses.
`Elements`, `SortedLists`, `ByteStrings`, `Addresses` and `Sharing` are shared.

Assumptions, as the source makes them: packet ids are distinct and ranks non-negative; there is at least one
balancer, PIFO, range, and the batch and period are at least one; no packet exceeds the buffer of one PIFO.
Ranks, borders, hotness and byte quotas are reals; bytes are integers. The rank of an arriving packet is a
parameter of `Enqueue` where the rank computation is not modelled.

Where the code does not do what is promised of it, the code is kept and the exact condition is proved:
- the counters by which Scale-up PIFO counts the packets of a range also tell where round robin stands, so that an
  adjustment counts, beside the packets accepted since the one before, where round robin stood then
  (`ScaleUpAdjust.CountsSinceAdjust`);
- the size recorded for a slot of the calendar queue is right after a dequeue exactly when the queue did not
  rotate (`CalendarQueue.WFQPCQScheduler.Dequeue`), since sizes do not rotate with the slots; one packet is enough
  to see it (`CalendarQueue.SizesDrift`);
- Gearbox takes time modulo its range, which addresses the slots of time itself, at all ticks, exactly when
  granularity times slots divides the range or there is one slot (`GearboxSlots.AgreesWhenRoundsFill`); and then it
  puts a packet into the slot that is addressed at its tick exactly when the remainders of time and rank do not add
  up to another granule (`GearboxSlots.OwnSlot`, with an input in `GearboxSlots.CarriedSlot`), so into its own slot
  at all ticks only with one slot or granules of one tick (`GearboxSlots.OwnSlotWhenFine`);
- Gearbox returns a packet exactly when some level holds one (`Gearbox.GearboxScheduler.Dequeue`), so packets that
  are ready are stranded when the levels are empty (`Gearbox.ReadyButStranded`);
- a nix-vector is a stack only while additions come before extractions (`NixVectors.AddAfterExtract`,
  `NixVectors.AddThenExtract`);
- an IPv4-mapped IPv6 address is printed in a form that the parser rejects (`Ipv6Parse.PrintedParses`), and the
  parser accepts a single colon at the end, and departs from section 2.2 of RFC 4291 in no other way
  (`Ipv6Grammar.Departs`, with an input in `Ipv6Grammar.TrailingColon`);
- `ReplaceTail` does not count the last four bytes of an item that it rewrites in place, so that the links of the
  next item may be written over its packet uid. `Metadata.PacketMetadata.Spoiled` says when joining packets loses
  labels by that, `MetadataRejoin.RejoinSpoils` when cutting a packet and joining the pieces does, and
  `MetadataRejoin.CutThatLoses` builds such a packet;
- an item that is added to a packet may change the metadata of another packet that shares its array:
  `MetadataSharing.WhoIsHit` says when, `MetadataSharing.AddTrailerBeside` what a reader of the other packet then
  sees, and `MetadataSharing.TrailerOnCopy` and `MetadataSharing.HeadersOnCopies` build such packets.

A shift of a 32-bit word by 32, which `ExtractNeighborIndex` does when a word is full, is undefined in C++ and is
modelled as a shift by the count modulo 32.

`dafny verify dfyconfig.toml` checks the whole project.

## Model

| member | source | states |
|---|---|---|
| ScaleUpSchedulers.DynamicIntervalRRPIFOScheduler.constructor | Single-node Performance/multiPIFO/scheduler.py:243-316 | from the source's parameters: the limits of FIFOs and PIFOs are shares of the rooms that the configuration asks for; a fresh scheduler denotes the initial state, where counters are shifted staircases and borders divide the range evenly |
| ScaleUpModel.ConfiguredLimits | Single-node Performance/multiPIFO/scheduler.py:254-262 | all PIFOs together have the given buffer; all FIFOs together have exactly the greater of 1500 bytes per range, balancer and PIFO and 3000 bytes per PIFO; everything else is as given |
| ScaleUpBorders.InitialIsEven | Single-node Performance/multiPIFO/scheduler.py:249-263 | at the start border i is i parts in as many as there are ranges of the total length |
| ScaleUpSchedulers.DynamicIntervalRRPIFOScheduler.GetIntervalIndex | Single-node Performance/multiPIFO/scheduler.py:318-325 | the range found, and the last border moved, are those of the state machine |
| ScaleUpSchedulers.DynamicIntervalRRPIFOScheduler.SelectBestPifo | Single-node Performance/multiPIFO/scheduler.py:327-335 | the scan finds the first port among the least counters |
| ScaleUpSchedulers.DynamicIntervalRRPIFOScheduler.Enqueue | Single-node Performance/multiPIFO/scheduler.py:355-386 | the fields, shared element objects and delays after an arrival denote the next state of the state machine, with the same events; ScaleUpArrival.ArrivalIs says which that is |
| ScaleUpArrival.ArrivalIs | Single-node Performance/multiPIFO/scheduler.py:318-386 | after any run, an arrival goes to balancer (arrivals so far) modulo balancers and, for the one range its rank belongs to, to the port where round robin stands; it is accepted exactly if the bytes in the FIFO there plus its length are below the limit; it then becomes the last one of that FIFO, and the ranges are adjusted exactly after each period of accepted packets; a packet turned away changes only the balancer's turn and perhaps the last border |
| ScaleUpArrival.RunKeepsTurns | Single-node Performance/multiPIFO/scheduler.py:362-398 | in every run balancers take turns over arrivals and ports over dequeues |
| ScaleUpDeparture.RefillIs | Single-node Performance/multiPIFO/scheduler.py:337-352 | a refill takes the first items of the FIFO, as many as a batch if there are; the PIFO is then in order, and what is dropped are the worst items, worst first, no more than needed to be within the cap |
| ScaleUpDeparture.DepartureIs | Single-node Performance/multiPIFO/scheduler.py:395-452 | after any run, a dequeue visits port (dequeues so far) modulo PIFOs and changes no other; it gives out the first item of its PIFO, before a batch comes in, or the best of the batch when the PIFO was empty; what is left is the rest, less what a full PIFO drops |
| ScaleUpSchedulers.DynamicIntervalRRPIFOScheduler.RefillFromFifo | Single-node Performance/multiPIFO/scheduler.py:337-352 | refill loads at most a batch, evicts the worst until within the cap, and takes evicted elements out of the shadow list too |
| ScaleUpSchedulers.DynamicIntervalRRPIFOScheduler.Dequeue | Single-node Performance/multiPIFO/scheduler.py:395-452 | a departure denotes the next state of the state machine and gives out what its events return |
| ScaleUpSchedulers.DynamicIntervalRRPIFOScheduler.UpdateQueueDelays | Single-node Performance/multiPIFO/scheduler.py:388-393 | just the elements of smaller rank in the shadow list get one more delay, read through every list that shares them |
| ScaleUpSchedulers.DynamicIntervalRRPIFOScheduler.CalculateCurrentCounts | Single-node Performance/multiPIFO/scheduler.py:468-478 | the triple loop adds up the counters of each range over balancers and PIFOs |
| ScaleUpSchedulers.DynamicIntervalRRPIFOScheduler.AdjustIntervals | Single-node Performance/multiPIFO/scheduler.py:480-579 | counters lowered by their least, hotness aged, coldest range merged and hottest split denote the adjusted state; ScaleUpAdjust.AdjustIs says which that is |
| ScaleUpAdjust.AdjustIs | Single-node Performance/multiPIFO/scheduler.py:480-579 | an adjustment of two or more ranges takes its least counter off every column; hotness grows by the counted totals after it was halved exactly if attenuation is always on or the hotness in all is above the PIFO cap over 1480; borders move exactly if the total is not zero and the maximum is above 100 and twice the mean or the minimum below half the mean; then the first coldest range and its colder neighbour, the left one on ties, become one, the border between them goes, and the middle of the first hottest range after that becomes a border |
| ScaleUpAdjust.RebalanceIs | Single-node Performance/multiPIFO/scheduler.py:527-579 | the same for moving borders alone |
| ScaleUpAdjust.CountsSinceAdjust | Single-node Performance/multiPIFO/scheduler.py:468-498 | in every run the counted total of a range is the number of its packets accepted since the last adjustment plus, per balancer, where round robin stood then; the adjust counter is the number of packets accepted |
| ScaleUpSchedulers.DynamicIntervalRRPIFOScheduler.IsEmpty | Single-node Performance/multiPIFO/scheduler.py:641-651 | true exactly when every FIFO and PIFO is empty |
| ScaleUpModel.ChoosePort | Single-node Performance/multiPIFO/scheduler.py:327-335 | the least counter, first on ties |
| ScaleUpRoundRobin.LeastCounterIsRoundRobin | Single-node Performance/multiPIFO/scheduler.py:290-335 | in every run, choosing the least counter is a round-robin pointer per balancer and range that starts at the range index modulo the number of PIFOs, moves on accepted packets only and is not touched by adjusts |
| ScaleUpRoundRobin.RunKeepsRoundRobin | Single-node Performance/multiPIFO/scheduler.py:355-386 | in every run the counters of a balancer and range form a staircase whose step is the pointer |
| ScaleUpRoundRobin.LoadIsBalanced | Single-node Performance/multiPIFO/scheduler.py:355-386 | over every run two PIFOs have accepted numbers of packets that differ by at most balancers times ranges |
| ScaleUpRoundRobin.LoadBelowIsBalanced | Single-node Performance/multiPIFO/scheduler.py:355-386 | the same for the packets of the first r ranges, with bound balancers times r |
| ScaleUpAccounting.RunKeepsAccounting | Single-node Performance/multiPIFO/scheduler.py:337-452 | in every reachable state the shadow list is sorted and holds just the items of all FIFOs and PIFOs, byte counters are the sums of lengths and within their caps, and accepted = returned + evicted + held |
| ScaleUpAccounting.DequeueServesVisitedPort | Single-node Performance/multiPIFO/scheduler.py:395-452 | in every reachable state a dequeue returns a packet exactly when the visited port holds one, and evicts nothing better than what stays |
| ScaleUpDelay.DelaysCount | Single-node Performance/multiPIFO/scheduler.py:355-452 | after any run, in delay mode, the delay of every item held, and that of every item that left when it did, is the number of items of greater rank returned since it was accepted |
| ScaleUpBorders.RunKeepsOrder | Single-node Performance/multiPIFO/scheduler.py:318-325 | in every run borders rise strictly from zero, one more than ranges, and each non-negative rank belongs to exactly one range, the one an arrival is counted under |
| ScaleUpBorders.RebalanceKeeps | Single-node Performance/multiPIFO/scheduler.py:527-579 | merging the coldest range and splitting the hottest keeps order, both ends, the number of ranges and the total hotness |
| ScaleUpDelay.RankErrorCounts | Single-node Performance/multiPIFO/scheduler.py:427-443 | the rank error of a departure is the number of held packets of smaller rank plus the ties that the packet id breaks |
| ScaleUpDelay.RankErrorsTally | Single-node Performance/multiPIFO/scheduler.py:427-443 | over every run the rank errors of all departures add up to the packets overtaken plus those ties |
| ScaleUpDelay.InversionsAreDelays | Single-node Performance/multiPIFO/scheduler.py:388-443 | in delay mode, over every run, the overtaken packets summed over departures are the delays of all packets returned, evicted or held |
| ScaleUpDelay.RankErrorsAreDelays | Single-node Performance/multiPIFO/scheduler.py:388-443 | in delay mode, over every run of distinct ranks, the rank errors of all departures add up to the delays of all packets returned, evicted or held |
| ScaleUpDrain.DrainIsNearlySorted | Single-node Performance/multiPIFO/scheduler.py:318-452 | draining a scheduler filled with less than a period: a departure of range r leaves at most (PIFOs - 1) * balancers * r held packets of lower ranges, and nothing is evicted |
| Driver.ProcessScheduler | Single-node Performance/multiPIFO/utils.py:103-157 | the loop ends; while input is left, each call offers the next item exactly if nothing is held or, in packet mode, fewer packets have been offered than the ratio times one more than given out, in bit mode fewer bytes than the ratio times those given out plus 1500, and else asks for a packet; the output is what the calls give out, and holds every accepted packet that was not evicted exactly once |
| Driver.DequeueProgresses | Single-node Performance/multiPIFO/utils.py:141-147 | a dequeue from a scheduler that is not empty takes a packet out or brings the port pointer nearer to the next port that holds one |
| SortedLists.SortedList.FindLeft | Single-node Performance/multiPIFO/sortedcontainers/__init__.py:30-31 | the binary search finds the first entry that is not below the element |
| SortedLists.SortedList.Add | Single-node Performance/multiPIFO/sortedcontainers/__init__.py:11-12 | adding keeps the list sorted and adds just the element |
| SortedLists.SortedList.Remove | Single-node Performance/multiPIFO/sortedcontainers/__init__.py:17-18 | removing takes out just the element and keeps the list sorted; an element that is not there is reported and changes nothing |
| SortedLists.SortedList.PopFirst | Single-node Performance/multiPIFO/sortedcontainers/__init__.py:14-15 | the first element leaves and nothing left is below it |
| SortedLists.SortedList.PopLast | Single-node Performance/multiPIFO/sortedcontainers/__init__.py:14-15 | the last element leaves and nothing left is above it |
| IdealPIFO.IdealPIFOScheduler.Enqueue | Single-node Performance/multiPIFO/scheduler.py:56-77 | after an arrival the list is the most of its best items that leave room, with the newcomer inserted; the greatest total ever held is recorded |
| IdealPIFO.ArrivalKeepsBest | Single-node Performance/multiPIFO/scheduler.py:63-77 | an arrival keeps the list sorted and within budget unless the newcomer alone exceeds it, evicts only what is no better than what stays, and no more than needed |
| IdealPIFO.IdealPIFOScheduler.Dequeue | Single-node Performance/multiPIFO/scheduler.py:79-108 | the least item leaves; rank error and delay are always zero |
| IdealPIFO.Drain | Single-node Performance/multiPIFO/scheduler.py:79-108 | emptying the scheduler gives out everything it held in rank order |
| RoundRanks.WFQPCQAlgorithm.RankCal | Single-node Performance/multiPIFO/algorithms.py:89-113 | a flow charged for at least the rounds gone by is charged the length of the packet more; any other is charged the quota of those rounds plus the length, and n is the number of whole quotas in the length; n plus the current round is the round in which the last byte charged falls; no other flow changes; an unknown flow changes nothing |
| CalendarCharges.RunCharges | Single-node Performance/multiPIFO/scheduler.py:1173-1220 | in every run the bytes charged to a flow are the fold of that rule over the calls, the round is that of the entry served last, and the size recorded for slot j is what was put there with rank j, less, for the first slot, all that was given out |
| CalendarCharges.OfferDecides | Single-node Performance/multiPIFO/scheduler.py:1173-1189 | after every run, a packet of a known flow is queued under the round in which the last byte charged falls exactly if that is less than the number of slots ahead and the recorded size plus its length is within the share; a packet of an unknown flow changes nothing |
| CalendarQueue.WFQPCQScheduler.Enqueue | Single-node Performance/multiPIFO/scheduler.py:1173-1189 | the outcome and the next state are those of the stable priority queue: an accepted packet is queued under the absolute round in which its last charged byte falls; an unknown flow, a round too far ahead and a full slot are turned away |
| CalendarQueue.WFQPCQScheduler.Dequeue | Single-node Performance/multiPIFO/scheduler.py:1191-1220 | the rotation ends, and the answer, with rank and rank error, and the next state are those of the stable priority queue: the entry of least round, earliest arrival first; recorded slot sizes stay right exactly when no rotation was needed |
| CalendarQueue.WFQPCQScheduler.IsEmpty | Single-node Performance/multiPIFO/scheduler.py:1222-1223 | true exactly when nothing is queued |
| CalendarQueue.SizesDrift | Single-node Performance/multiPIFO/scheduler.py:1191-1220 | a fresh queue that has taken one packet due two rounds ahead and served it records wrong sizes |
| CalendarQueue.SlotsRotate | Single-node Performance/multiPIFO/scheduler.py:1216-1220 | turning an empty first slot to the end keeps slot j holding the entries due j rounds ahead |
| CalendarRuns.Execute | Single-node Performance/multiPIFO/scheduler.py:1173-1223 | over any run of calls on a fresh queue, what is given out and the state reached are those of the stable priority queue keyed by absolute round, which determines what is turned away, the round of each entry, and whom each request serves |
| CalendarModel.RunIsFair | Single-node Performance/multiPIFO/scheduler.py:1173-1223 | in every run packets of a flow leave in the order accepted, rounds served never decrease, nothing is lost, and the bytes of a flow served in one round are fewer than its quota plus one longest packet |
| CalendarModel.RunIsSound | Single-node Performance/multiPIFO/scheduler.py:1173-1220 | in every run the shadow list is sorted and holds just what is queued, recorded sizes add up to the bytes held, and every flow is charged up to the round of its last entry |
| CalendarModel.RunIsBounded | Single-node Performance/multiPIFO/scheduler.py:1173-1220 | in every run no slot records more than its share of the buffer |
| CalendarModel.HeldIsBounded | Single-node Performance/multiPIFO/scheduler.py:1173-1220 | in every run the bytes queued are at most the number of slots times that share |
| CalendarModel.HistoryOfRun | Single-node Performance/multiPIFO/scheduler.py:1191-1220 | what a run gives out are just the packets of the entries served, with their ranks, in order |
| CalendarModel.AskAnswers | Single-node Performance/multiPIFO/scheduler.py:1191-1213 | after every run a request gets the earliest entry of least round, with the number of held packets of lower rank on arrival as its rank error |
| CalendarModel.ServeKeeps | Single-node Performance/multiPIFO/scheduler.py:1191-1220 | serving the least round keeps: what has left of a flow is a prefix of its accepted packets, rounds served do not decrease, and nothing is lost |
| CalendarModel.FairStep | Single-node Performance/multiPIFO/algorithms.py:97-113 | charging a packet, accepted or not, keeps the bytes of each round within what the flow has been charged beyond that round plus one longest packet |
| CalendarModel.AcceptKeepsFair | Single-node Performance/multiPIFO/algorithms.py:97-113 | an accepted packet keeps every flow within its quota and one longest packet in every round |
| Gearbox.GearboxScheduler.Enqueue | Single-node Performance/multiPIFO/scheduler.py:744-780 | the packet goes to the finest level that reaches its rank, into the slot its tick asks for, unless that is full |
| Gearbox.GearboxScheduler.Dequeue | Single-node Performance/multiPIFO/scheduler.py:820-841 | a packet comes out exactly when some level FIFO holds one, even if others are ready; time moves to the first tick at which something is due, by at most the range |
| Gearbox.GearboxScheduler.UpdateGearBoxSysTime | Single-node Performance/multiPIFO/scheduler.py:802-818 | the search stops within the range at the first tick with a non-empty addressed slot |
| Gearbox.GearboxScheduler.GearboxServe | Single-node Performance/multiPIFO/scheduler.py:783-800 | serving a tick empties the addressed slot of level 0, takes the first n / granularity, but at least one, of n items in that of a coarser level, and leaves every other slot alone; ready grows by just what is gone, level by level and in order; shadow list and slot sizes are kept, and something becomes ready exactly when something is due |
| Gearbox.ServeKeeps | Single-node Performance/multiPIFO/scheduler.py:783-800 | serving loses nothing and makes something ready exactly when something is due |
| Gearbox.ReadyButStranded | Single-node Performance/multiPIFO/scheduler.py:820-848 | of two packets in the one slot of a fresh scheduler the first request gets one, and the next gets none although the other is ready |
| GearboxSlots.SlotIsMet | Single-node Performance/multiPIFO/scheduler.py:732-742 | every slot is addressed in any range of consecutive ticks |
| GearboxSlots.AgreesWhenRoundsFill | Single-node Performance/multiPIFO/scheduler.py:701-742 | time modulo the range addresses the slots of time itself at all ticks exactly when granularity times slots divides the range or the level has one slot |
| GearboxSlots.AddressedWhenDue | Single-node Performance/multiPIFO/scheduler.py:744-765 | when they agree, a packet's slot is addressed in just one granule of the round: that of its arrival plus the whole granules of its rank |
| GearboxSlots.OwnSlot | Single-node Performance/multiPIFO/scheduler.py:744-765 | when they agree and there are several slots, a packet is put into the slot that is addressed at its tick exactly when the remainders of the time and of its rank do not add up to another granule |
| GearboxSlots.OwnSlotWhenFine | Single-node Performance/multiPIFO/scheduler.py:701-765 | every packet that a level takes, at all ticks, is put into the slot that is addressed at its tick exactly when the level has one slot, or its granules are of one tick and its slots divide the range |
| GearboxSlots.CarriedSlot | Single-node Performance/multiPIFO/scheduler.py:744-765 | with ten slots of ten ticks, a packet that comes at tick 9 and is due at tick 10 is put into the slot that is served at tick 9 |
| PacketTagLists.TagStore.RemoveAll | ns3/network/model/packet-tag-list.h:341-362 | the list becomes empty, its own nodes are freed up to the first shared one, and no other list changes |
| PacketTagLists.TagStore.CopyConstruct | ns3/network/model/packet-tag-list.h:309-316 | a copy shares the nodes and holds the same tags |
| PacketTagLists.TagStore.Assign | ns3/network/model/packet-tag-list.h:319-333 | the list holds what the other holds; nodes it alone used are freed |
| PacketTagLists.TagStore.Destruct | ns3/network/model/packet-tag-list.h:335-338 | the list goes and no other list changes |
| PacketTagLists.TagStore.Add | ns3/network/model/packet-tag-list.cc:244-261 | the tag is in front of this list only |
| PacketTagLists.TagStore.CowTraverse | ns3/network/model/packet-tag-list.cc:38-155 | the writer is applied to the first tag of the type, in place before the first shared node and on copies after it, and only this list changes |
| PacketTagLists.TagStore.CopyUpTo | ns3/network/model/packet-tag-list.cc:127-144 | copying shared nodes up to the tag changes what no list holds and makes the path before it private |
| PacketTagLists.TagStore.RunRemoveWriter | ns3/network/model/packet-tag-list.cc:165-193 | the node is linked past, and freed if it was private, else its count and its successor's are moved |
| PacketTagLists.TagStore.RunReplaceWriter | ns3/network/model/packet-tag-list.cc:209-240 | a private node is rewritten, a shared one replaced by a copy |
| PacketTagLists.TagStore.Remove | ns3/network/model/packet-tag-list.cc:158-161 | the first tag of the type leaves this list only, and its bytes are given back |
| PacketTagLists.TagStore.Replace | ns3/network/model/packet-tag-list.cc:197-205 | the first tag of the type gets the new bytes in this list only; without one the tag is added |
| PacketTagLists.TagStore.Peek | ns3/network/model/packet-tag-list.cc:264-279 | finds the first tag of the type |
| PacketTagTree.PrivateNode | ns3/network/model/packet-tag-list.cc:57-79 | a node before the first shared one of a list is on no other list |
| PacketTagSteps.CopyNodeKeeps | ns3/network/model/packet-tag-list.cc:127-144 | one copying step keeps the memory well formed and what every list holds |
| PacketTagRuns.Execute | ns3/network/model/packet-tag-list.cc:37-279 | over any interleaving of operations on any number of lists, every list and every answer is as if the list had its tags to itself, and memory stays well formed |
| PacketTagRuns.CountsAreIncoming | ns3/network/model/packet-tag-list.h:158-163 | a node's count is the number of pointers to it and no pointer leads to a freed node |
| PacketTagRuns.NothingIsLost | ns3/network/model/packet-tag-list.h:341-362 | when no list holds a tag every node has been freed |
| PacketTagRuns.ReplaceIsMap | ns3/network/model/packet-tag-list.cc:197-205 | replacing updates the map from types to bytes that a list is |
| PacketTagRuns.RemoveIsMap | ns3/network/model/packet-tag-list.cc:158-161 | removing removes the type from that map exactly when the list has no second tag of the type |
| Buffers.BufferStore.Initialize | ns3/network/model/buffer.cc:244-256 | a new buffer is that many zeros, all without storage |
| Buffers.BufferStore.CopyConstruct | ns3/network/model/buffer.h:1049-1059 | a copy denotes the same bytes and shares storage |
| Buffers.BufferStore.Assign | ns3/network/model/buffer.cc:259-281 | the buffer denotes the other's bytes; its old storage is released |
| Buffers.BufferStore.Destroy | ns3/network/model/buffer.cc:283-293 | the buffer goes and no other changes |
| Buffers.BufferStore.AddAtStart | ns3/network/model/buffer.cc:309-352 | new bytes in front of the old ones, stored where no other buffer looks; no other buffer changes |
| Buffers.BufferStore.AddAtEnd | ns3/network/model/buffer.cc:354-397 | new bytes behind the old ones, stored where no other buffer looks; no other buffer changes |
| Buffers.BufferStore.RemoveAtStart | ns3/network/model/buffer.cc:441-484 | drops that many bytes from the start, through real bytes and zero area |
| Buffers.BufferStore.RemoveAtEnd | ns3/network/model/buffer.cc:486-519 | drops that many bytes from the end |
| Buffers.BufferStore.CreateFragment | ns3/network/model/buffer.cc:522-531 | the slice; empty when it reaches beyond the end, by 32-bit wrap-around |
| Buffers.BufferStore.CreateFullCopy | ns3/network/model/buffer.cc:534-556 | the same bytes with no zero area left |
| Buffers.BufferStore.WriteU8 | ns3/network/model/buffer.h:868-883 | writing a byte that no other buffer uses changes that byte of that buffer only |
| Buffers.BufferStore.Peek | ns3/network/model/buffer.h:997-1018 | reads the byte denoted at a position |
| BufferMemory.EndIsOwned | ns3/network/model/buffer.cc:359-372 | the bytes gained at the end in place are used by no other buffer |
| BufferMemory.StartIsOwned | ns3/network/model/buffer.cc:314-327 | the bytes gained at the start in place are used by no other buffer |
| BufferMemory.StretchLeads | ns3/network/model/buffer.cc:354-372 | a sharer whose end is the end of the dirty area keeps the furthest real end |
| BufferRuns.Execute | ns3/network/model/buffer.cc:244-556 | over any interleaving of operations on any number of buffers that share storage, each is a string of bytes of its own |
| ByteTagLists.ByteTagStore.Add | ns3/network/model/byte-tag-list.cc:191-226 | the tag joins this list only, whether the shared array is written in place or copied |
| ByteTagLists.ByteTagStore.AddList | ns3/network/model/byte-tag-list.cc:229-239 | the other list's tags join, cut to the range of offsets |
| ByteTagLists.ByteTagStore.Adjust | ns3/network/model/byte-tag-list.h:256-260 | all offsets of the list move |
| ByteTagLists.ByteTagStore.AddAtEnd | ns3/network/model/byte-tag-list.cc:277-306 | bytes from the offset on lose their labels and those before keep them, also when the greatest end lets it return early |
| ByteTagLists.ByteTagStore.AddAtStart | ns3/network/model/byte-tag-list.cc:309-339 | bytes before the offset lose their labels and those after keep them, also when the least start lets it return early |
| Packets.PacketStore.AddHeader | ns3/network/model/packet.cc:257-266 | new bytes at the start have no labels, the others keep theirs |
| Packets.PacketStore.RemoveAtStart | ns3/network/model/packet.cc:340-346 | what is left keeps its labels |
| Packets.PacketStore.AddTrailer | ns3/network/model/packet.cc:285-294 | new bytes at the end have no labels |
| Packets.PacketStore.CreateFragment | ns3/network/model/packet.cc:228-242 | a fragment has the labels of its bytes |
| Packets.PacketStore.AddAtEnd | ns3/network/model/packet.cc:313-323 | the labels of the other packet follow those of this one |
| Packets.PacketStore.AddByteTag | ns3/network/model/packet.cc:791-799 | every byte the packet has now gets one more label |
| PacketRuns.Execute | ns3/network/model/packet.cc:227-346 | through any sequence of operations on packets that share tag arrays every byte has just the labels it was given |
| MetadataCodec.Uleb128RoundTrip | ns3/network/model/packet-metadata.cc:165-320 | every 32-bit number is read back, in as many bytes as computed, whatever follows |
| MetadataCodec.WrittenAs | ns3/network/model/packet-metadata.cc:165-320 | it is written to base 128, least digit first and as short as can be, with the top bit set on all bytes but the last; two- and four-byte numbers are little endian |
| MetadataCodec.ItemRoundTrip | ns3/network/model/packet-metadata.cc:404-449 | an item as written is read back with its links |
| Metadata.PacketMetadata.ReserveCopy | ns3/network/model/packet-metadata.cc:74-97 | the same items in an array of the packet's own, with room for more; the array that is left keeps its bytes and counts one packet less |
| Metadata.PacketMetadata.Copy | ns3/network/model/packet-metadata.h:702-712 | a copy has the same items in the same array, which counts one packet more |
| Metadata.PacketMetadata.Assign | ns3/network/model/packet-metadata.h:713-734 | the packet takes over items and array of the other; the counts follow, also when both use the same array |
| Metadata.PacketMetadata.UpdateTail | ns3/network/model/packet-metadata.cc:322-347 | the item just written becomes the last of the list; only the link of the former last item changes, and the dirty end is set |
| Metadata.PacketMetadata.UpdateHead | ns3/network/model/packet-metadata.cc:349-373 | the item just written becomes the first of the list; only the link of the former first item changes, and the dirty end is set |
| Metadata.PacketMetadata.ReadItems | ns3/network/model/packet-metadata.cc:529-567 | reading at an item gives it and its neighbours |
| Metadata.PacketMetadata.AddHeader | ns3/network/model/packet-metadata.cc:664-682 | the header's labels come in front and the others stay, exactly when its links are not written over the end of an item that differs from them; it is written in place exactly when there is room and the packet has no items, is the only user of the array or was the last to write in it, and else in an array of its own; in place, only bytes behind the used part and one link change |
| Metadata.PacketMetadata.AddTrailer | ns3/network/model/packet-metadata.cc:732-752 | the trailer's labels come at the end and the others stay, under the same exact condition; it is written in the same places |
| Metadata.PacketMetadata.RemoveAtStart | ns3/network/model/packet-metadata.cc:890-950 | drops just that many labels from the start; the packet leaves its array exactly when an item is cut |
| Metadata.PacketMetadata.RemoveAtEnd | ns3/network/model/packet-metadata.cc:953-1015 | drops just that many labels from the end; the packet leaves its array exactly when an item is cut |
| Metadata.PacketMetadata.CreateFragment | ns3/network/model/packet-metadata.cc:644-652 | a fragment has the labels of its bytes; it shares the array exactly when no item is cut, and then has some consecutive nodes of the list |
| Metadata.PacketMetadata.GetTotalSize | ns3/network/model/packet-metadata.cc:1017-1038 | walking the list adds up to the number of labels |
| Metadata.PacketMetadata.ReplaceTail | ns3/network/model/packet-metadata.cc:451-525 | the last item is replaced, in place if there is room and nobody else uses the array, else in a new list; an item that grows in place reaches by up to four bytes beyond the used part that is recorded |
| Metadata.PacketMetadata.AddAtEnd | ns3/network/model/packet-metadata.cc:802-878 | the labels are those of both packets in order, also when two pieces merge, exactly when no item is spoiled, which compares the last four bytes of the last item with the links written over them; without such a write the result can be worked on further, and all of it is within the used part unless an item has grown in place; an array that others use keeps all bytes but those behind the used part and one link |
| MetadataLabels.LapLabels | ns3/network/model/packet-metadata.cc:404-449 | writing over the end of one item keeps all labels exactly when the item has none or its packet uid keeps its value |
| MetadataRejoin.CutAndRejoin | ns3/network/model/packet-metadata.cc:644-652 | cutting a packet anywhere and joining the pieces gives its labels back, exactly unless the first item is cut, its end takes more bytes where it is whole, the array of the piece has room for them, and the links of the next item are not what they overwrite |
| MetadataRejoin.CutThatLoses | ns3/network/model/packet-metadata.cc:451-525 | a packet of a 200-byte header and a payload, cut after 100 bytes and joined again, has other labels |
| MetadataRuns.Execute | ns3/network/model/packet-metadata.cc:644-1015 | over any sequence of operations on any number of packets, fragments among them, that share arrays as in the source, each acts on one packet as on its own string of labels, until one asks for bytes that are not there, would write over the end of an item, might exceed 16-bit offsets, or writes in an array where it hits another packet |
| MetadataRuns.CountsKept | ns3/network/model/packet-metadata.h:702-743 | each array counts the packets that use it |
| MetadataRuns.AllKept | ns3/network/model/packet-metadata.cc:322-373 | after an operation that hits no other packet all packets are whole, nothing lies beyond the dirty end of an array, and lists in one array have their items in common or apart |
| MetadataSharing.WhoIsHit | ns3/network/model/packet-metadata.cc:375-402 | an operation that writes in a shared array hits a packet within its used part exactly when the writer has no items and the other goes on behind the writer's used part, or the link that is set is one between two items of the other |
| MetadataSharing.AddTrailerBeside | ns3/network/model/packet-metadata.cc:732-752 | a trailer added to one packet changes what a reader of another one sees exactly when it is written in the shared array, the packet's last item is followed by others in the other packet, and these have other labels than the trailer; the reader then sees the trailer instead of them |
| MetadataSharing.TrailerOnCopy | ns3/network/model/packet-metadata.cc:644-752 | a packet of a payload of 50 bytes and a header of 200 reads as 204 bytes after a trailer of 4 bytes has been added to a fragment of it without the payload |
| MetadataSharing.HeadersOnCopies | ns3/network/model/packet-metadata.cc:375-402 | when a packet without items is copied and a header is added to each, the first reads as the second's header |
| NixVectors.NixVector.AddNeighborIndex | ns3/network/model/nix-vector.cc:88-157 | appends just the given bits, none included, across the ends of words; more than 32 are an error |
| NixVectors.NixVector.ExtractNeighborIndex | ns3/network/model/nix-vector.cc:160-211 | gives the last bits left and uses them up; too many or none are an error |
| NixVectors.ExtractAll | ns3/network/model/nix-vector.cc:88-211 | what has been added comes out again, last first |
| NixVectors.AddAfterExtract | ns3/network/model/nix-vector.cc:88-211 | an index that is added comes out first, whatever it is, exactly when nothing has been extracted before |
| NixVectors.AddThenExtract | ns3/network/model/nix-vector.cc:88-211 | adding an index and extracting one of its width gives the bits before the used ones, so the index itself when nothing has been extracted |
| NixVectors.AddAndExtractAll | ns3/network/model/nix-vector.cc:88-211 | a nix-vector from which nothing has been extracted is a stack: any list of indices that is added comes out last first |
| NixVectors.BelowIsLess | ns3/network/model/nix-vector.cc:88-157 | a value fits its width exactly when no bit from the width on is set |
| NixVectors.BitCount | ns3/network/model/nix-vector.cc:365-385 | the least width in which all neighbours can be told apart, at least one |
| Ipv6Text.FindBestRun | ns3/network/utils/ipv6-address.cc:526-572 | the run left out is the first of the longest runs of at least two zero groups (section 4.2 of RFC 5952) |
| Ipv6Text.Print | ns3/network/utils/ipv6-address.cc:500-593 | prints the dotted form of a mapped address and otherwise the groups in hexadecimal with that run left out |
| Ipv6Canonical.PrintedIsCanonical | ns3/network/utils/ipv6-address.cc:500-593 | what is printed for a mapped address is a prefix and bytes 12 to 15 in decimal, in order; for any other the groups, in order, in lower-case hexadecimal without leading zeros, with a double colon for that run (section 4 of RFC 5952) |
| Ipv6Parse.AsciiToIpv6Host | ns3/network/utils/ipv6-address.cc:150-279 | the loop reads just the texts of the grammar, and as the address each means: eight groups of one to four hexadecimal digits, or at most seven and one double colon, and possibly a single colon at the end |
| Ipv6Grammar.ParseIsGrammar | ns3/network/utils/ipv6-address.cc:150-279 | what the scan accepts, character by character, are just the spellings of that grammar, with their meanings |
| Ipv6Grammar.TrailingColon | ns3/network/utils/ipv6-address.cc:150-279 | a text that ends in a single colon is read, which section 2.2 of RFC 4291 does not allow |
| Ipv6Grammar.Departs | ns3/network/utils/ipv6-address.cc:150-279 | what is read is one of the hexadecimal forms of that section exactly when it does not end in a single colon |
| Ipv6Parse.PrintedParses | ns3/network/utils/ipv6-address.cc:150-279 | a printed address is read back exactly when it is not IPv4-mapped |
| Ipv6Parse.RoundTrip | ns3/network/utils/ipv6-address.cc:500-593 | printing and reading back gives the address, or fails on a mapped one |

## Left out

- Driver.ProcessScheduler: packets longer than the buffer of one PIFO are excluded, because a refill that evicts everything makes the source return a bare nothing; and the statistics returned beside the packets are not modelled.
- ScaleUpBorders.RunKeepsOrder: midpoints are exact, so that a split is strict; floating-point rounding is not modelled.
- Gearbox.GearboxScheduler.Enqueue: the last level of each flow is recorded in the source and never read; it is not modelled.
- PacketTagLists.TagStore.Add: the assertion that a type is not yet in the list is not required; the contract holds without it, and PacketTagRuns.RemoveIsMap says what a second tag of a type does.
- PacketTagLists.TagStore.Replace: all tags of a type serialize to the same number of bytes; otherwise what lies behind a shorter tag depends on whether the node was shared.
- SortedLists.SortedList.Add: an element object that the list already holds is excluded; the schedulers never add one twice.
- Packets.PacketStore.AddAtEnd: a packet appended to itself is excluded, as in ByteTagLists.ByteTagStore.AddList.
- ByteTagLists.ByteTagStore.AddList: a list added to itself is excluded, because the source then iterates over an array that it grows or releases.
- NixVectors.NixVector.AddNeighborIndex: a value with bits beyond its width is excluded; the source would store these bits among those of other indices.
- Buffers.BufferStore.AddAtEnd: appending another buffer is not modelled, because the iterator it writes with does not correct the destination for the zero area; free lists and the choice of allocation sizes are not modelled either (a new storage may have any size that is large enough).
- ByteTagLists.ByteTagStore.AddAtEnd: the bounds that the source updates in the old list while it builds the new one are overwritten by the assignment that follows and are not modelled.
- Metadata.PacketMetadata.AddAtEnd: a packet appended to itself is excluded, and so is one in the same array that the first write would hit while it is being read; runs stop there.
- MetadataRejoin.CutAndRejoin: for a cut between items, an item without bytes at the cut is excluded, because it becomes part of both pieces, and so is a packet whose last item reaches beyond the used part.
- MetadataRuns.Execute: offsets stay below 0xffff and packet uids below 2^31; arrays that nobody uses any more are not followed, so that an array may be new or used before.
- Removing headers and trailers from metadata by type, and metadata switched off.
- Overflow of 32-bit offsets and counts, except the wrap-around in fragmenting a buffer.
- The schedulers AIFO, SP-PIFO, Packs, SP-PCQ and round-robin interleaving: copies of the shadow-list and cap invariants proved here.
- Trace and algorithm loading, metrics, plotting, experiment drivers, the switch control plane, and the rest of ns-3.
