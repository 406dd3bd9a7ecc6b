# mpitofino: proofs about an allreduce inside a switch

mpitofino adds up the buffers of many workers inside a Tofino switch. No single file of it is correct by
itself: correctness comes from constants and invariants in the client library, the switch program and the
control plane that have to fit together. This project models the four layers and proves that they do.

**Data plane.** `Payloads`, `Aggregator`, `SlotProtocol`, `SlotInvariant`, `SlotTheorems`, `FlatAggregator`
and `WindowTightness` treat one channel as a transition system. Workers post packets within their window,
every link is a FIFO queue, packets take a first pass on their pipe, completed packets recirculate for a
second pass, results of pipe 0 hop to pipe 3 and count there as one more worker, and finished results are
copied to every worker. Any enabled event may come next. `Collectives` is the `Collectives` control as a
class over register arrays, one method for one pass of a packet, with `Bitmaps` for the two-word worker
bitmaps; each pass is shown to be a step of the slot protocol on the unit's own slots.

**Client.** `ByteOrder` holds the byte swap with its vector loop that runs past the end of the buffer.
`ClientWindow`, `ClientBuffers` and `Allreduce` hold the ring loop: `Allreduce.Call` is one call with its
buffers, its ring and its completion queue, and `ClientSchedule` says how far a schedule of completions
takes it.

**Client and switch.** `Cluster` puts them together: every worker runs the ring loop of one call after the
other over its registered memory, posting, completing and converting exactly as `Allreduce.Call` does (both
post when `CanPost` says so and change memory by `PostBuf` and `StoreBuf`); the network sends what that memory holds, packet by
packet, through the switch of `SlotProtocol`, and writes what arrives into receive buffers. `ClusterInvariant`
and `ClusterRuns` show that every step keeps what is true of every worker's memory and that the network's
part of every run is a run of the slot protocol. `AllreduceSum` concludes: finished calls hold the sums, no
run gets stuck, and none goes on for ever, for any sequence of calls with any counts.

**Control plane.** `Channels`, `Tables` and `Reconcile` say which table entries a channel needs and what one
pass over the repository makes of the tables. `AsicDriver.ASICDriver`, `StateRepository.StateRepository`,
`Agent.Agent` and `NodeDaemon.NodeDaemon` are the classes of the code, with `ControlState` for what they
keep true. `ChannelProgram` shows that a channel's entries set up exactly one valid instance of the slot
protocol. `Ownership` is the stream of `Messages` between node daemons and the switch. `Datapath` closes the
circle: with the driver's tables loaded into a pipe, whatever selector entry a packet matches, its pass over the registers is
the pass of that very instance of the slot protocol. It starts from clear slots: the repository update that
completes a channel leaves the unit's registers idle on both pipes and touches no other register. `Switch` puts
repository, driver and pipes together: through every interleaving of repository changes and packets of any
channels, each complete channel's registers are those of its own slot protocol, and a packet that
stays in the switch comes by again where that protocol has it.

**Checksums.** `Icrc`, `IcrcReference`, `IcrcSplit`, `IcrcConstants` and `IcrcPacket` relate the switch's split
invariant CRC (section 7.8.1 of the InfiniBand Architecture Specification, volume 1) to the bit-serial
reference, including the literal summands in the switch program; they say which bytes
the checksum leaves out and that it notices every change of up to four bytes in a row of the others.
`InternetChecksum` is the checksum of RFC 1071.

## Assumptions

The code relies on these, and so do the models:

- Links lose, duplicate and reorder nothing; there is no retransmission. Completions of one kind come in
  posting order.
- All workers of a channel make the same allreduce calls with the same counts, and call by call as fast or as
  slowly as they like.
- Participants are on pipes 0 and 3. Participants on other pipes are skipped by one loop of the driver and
  counted by others; `ChannelProgram.RidsAgree` says exactly when this matters.
- Units are below 64, which fewer than 64 channels guarantee; `Collectives.IndexAliases` says exactly which
  slots share a register otherwise.
- A participant asks for a channel once in the channel's life, with an address that is not zero, and names at
  least one and at most 255 participants, so that eight bits count those with one address.
- Source and destination buffers are disjoint and aligned to words, and there is memory as far as a call goes:
  `ClientBuffers.SourceEnd` words of the source, `DestEnd` words of the destination and `ReadEnd` words of
  registered memory, which are the library's 32768 words except in the case named below.
- Packets on the inter-pipe port have been selected on pipe 0 and keep their addresses on the way.

Where the code does not do what it is for, the exact condition is proved: multicast nodes are shared by units
in the same block of eight (`Reconcile.ReconciledExact`, with the smallest instance in
`Reconcile.FirstTwoClash`); the window may not be wider than the slots (`WindowTightness.WindowExact`); a
conversion writes past its count unless its end is 32-byte aligned or comes before the first aligned word
(`ByteOrder.ExtentExact`), and a whole call exactly as far as one conversion of all its words would
(`ClientBuffers.DestExact`); a call of more than two chunks into a destination that is not 32-byte aligned reads
up to seven words past the registered memory, if its third chunk is full enough
(`ClientBuffers.ReadsPastExact`, with an input in `ClientBuffers.ReadsPastInput`), although the results are right
whatever is read there; and when a node daemon disconnects, the replies held back stay deliverable if and
only if no remaining channel holds one for it (`Agent.Agent.OnDisconnect`, with an input in
`HeldReplies.ReplyForNobody`).
A comment in the switch program speaks of 256 channels with 16 units each; the code that follows has 64 units
with 256 slots each, and that is what is modelled.

## Model

| member | source | states |
|---|---|---|
| Payloads.SumIsModularSum | projects/mpitofino/p4/collectives.p4:9-16 | additions that each wrap at 2^32 give the plain sum of all words reduced once |
| Payloads.SumBelowUnion | projects/mpitofino/p4/collectives.p4:9-16 | sums over disjoint groups of workers add up, in whatever order contributions arrive |
| Aggregator.FirstPassInv | projects/mpitofino/p4/collectives.p4:9-32 | a first pass keeps every slot equal to the bits and the sum of the workers that contributed the one packet it serves, if the worker is fewer than 256 packets ahead of the second passes |
| Aggregator.FirstPassCompletes | projects/mpitofino/p4/collectives.p4:201-245 | the bitmap comparison fires exactly when the last worker has contributed, in packet order, and the slot then holds the complete sum |
| Aggregator.ClearPassInv | projects/mpitofino/p4/collectives.p4:18-37 | the second pass puts out the complete result of the next packet in order, leaves its slot all zero, and keeps the invariant |
| Aggregator.Serves | projects/mpitofino/p4/collectives.p4:254-254 | the one packet number in a window of 256 that a slot serves |
| SlotProtocol.Config.LastTotal | projects/mpitofino/sd/asic_driver.cc:679-732 | pipe 0's total, counted on pipe 3 as one more worker, makes pipe 3's total the sum over all workers, for every placement |
| SlotProtocol.Config.Stage3 | projects/mpitofino/sd/asic_driver.cc:688-732 | with pipe 0's results as one more feeder the bits on pipe 3 are still pairwise distinct |
| SlotInvariant.StepInv | projects/mpitofino/p4/collectives.p4:279-324 | every event of the data path keeps the invariant of both pipes, all queues, all results and the window |
| SlotInvariant.WorkerInWindow | projects/mpitofino/client_lib/mpitofino.h:88-92 | a window of at most 256 packets keeps every worker fewer than 256 packets ahead of the second passes of its pipe |
| SlotInvariant.HopInWindow | projects/mpitofino/sd/asic_driver.cc:795-810 | so are pipe 0's results on pipe 3 |
| SlotTheorems.EndToEnd | projects/mpitofino/p4/collectives.p4:279-324 | in every run each worker has received a prefix of the correct results, word by word the sum of all workers modulo 2^32; no run is longer than the total work, and one that cannot go on has given every result to every worker once |
| SlotTheorems.NoDeadlock | projects/mpitofino/client_lib/mpitofino.cc:454-576 | when nothing can happen any more every worker has every result |
| SlotTheorems.WorkBound | projects/mpitofino/client_lib/mpitofino.cc:454-576 | the work done never exceeds the total, and falls short only while some worker misses a result |
| SlotTheorems.ResultsInOrder | projects/mpitofino/p4/collectives.p4:226-245 | packets on the way to a worker are the next results in sequence-number order, each with a receive already posted, and all workers are offered the same |
| SlotTheorems.SlotReuse | projects/mpitofino/p4/collectives.p4:9-37 | in every reachable state a slot holds the bits and the sum of workers that contributed one single packet, or nothing |
| SlotTheorems.CapturedHalves | projects/mpitofino/p4/collectives.p4:18-37 | while a packet recirculates its slot keeps the complete bitmap and sum, so the halves read by the two passes belong together |
| FlatAggregator.ChainRefinesFlat | projects/mpitofino/sd/asic_driver.cc:679-824 | for all placements each step of the two chained pipes is a step of one flat aggregator or invisible: results are distributed only when every worker has contributed |
| FlatAggregator.QuietSwitch | projects/mpitofino/sd/asic_driver.cc:788-824 | and they are distributed whenever every worker has contributed, once nothing is under way in the switch |
| FlatAggregator.InterPipeBit | projects/mpitofino/sd/asic_driver.cc:688-732 | pipe 3's inter-pipe bit of a slot is set only if every pipe-0 worker has contributed, and then is set once pipe 0's packets have arrived |
| WindowTightness.TooWide | projects/mpitofino/client_lib/mpitofino.h:88-91 | with any wider window there is a run in which a worker receives a wrong result |
| WindowTightness.WindowExact | projects/mpitofino/client_lib/mpitofino.h:88-91 | results are correct in all runs if and only if ring size times packets per chunk is at most 256 |
| Collectives.IndexAliases | projects/mpitofino/p4/collectives.p4:29-37 | the cast to 14 bits makes two slots share a register exactly when their units agree modulo 64 and their sequence numbers modulo 256 |
| Collectives.Pipeline.constructor | projects/mpitofino/p4/collectives.p4:109-110 | all registers start at zero, so every slot starts empty |
| Collectives.Pipeline.AddValues | projects/mpitofino/p4/collectives.p4:9-32 | both halves are added in the 32 units, the new low half is read back, other registers stay |
| Collectives.Pipeline.ClearValues | projects/mpitofino/p4/collectives.p4:18-37 | the high half is read back, both halves become zero, other registers stay |
| Collectives.Pipeline.Apply | projects/mpitofino/p4/collectives.p4:279-324 | one pass: bitmap, comparison, verdict, values and output payload for a first pass, a second pass and an unselected packet; every other slot stays |
| Collectives.Pipeline.Refine | projects/mpitofino/p4/collectives.p4:141-324 | a pass over the registers is a first or second pass of the slot protocol on the unit's own slots and no pass on those of any other unit below 64 |
| Collectives.Pipeline.ClearIndex | projects/mpitofino/sd/asic_driver.cc:1145-1206 | the control plane's writes leave one register index empty and all others alone |
| Bitmaps.OrPositions | projects/mpitofino/p4/collectives.p4:112-124 | or-ing the two words is the union of the sets of workers |
| Bitmaps.EqualPositions | projects/mpitofino/p4/collectives.p4:226-245 | comparing the two words is comparing the sets of workers |
| Bitmaps.ShiftMask | projects/mpitofino/sd/asic_driver.cc:668-673 | the driver's shift goes from one worker's bit to the next across the carry from the low to the high word |
| Bitmaps.OrMask | projects/mpitofino/sd/asic_driver.cc:664-667 | one more worker's bit turns the full map of n workers into that of n + 1 |
| Bitmaps.FirstNPositions | projects/mpitofino/sd/asic_driver.cc:563-568 | the full map of n workers is exactly the positions below n |
| Bitmaps.Limits | projects/mpitofino/sd/asic_driver.cc:594-595 | the two numeric limits on the high word mean 64 and 61 workers, and a low word of zero means none |
| ByteOrder.SwapTwice | projects/mpitofino/client_lib/mpitofino.cc:55-60 | the byte swap is its own inverse |
| ByteOrder.SwapBytes | projects/mpitofino/client_lib/mpitofino.cc:55-60 | the swapped word has the four bytes in the opposite order |
| ByteOrder.ExtentExact | projects/mpitofino/client_lib/mpitofino.cc:62-78 | for every count and alignment: the conversion stays within its count exactly when its end is 32-byte aligned or it ends before the first aligned word; otherwise it writes on up to a 32-byte boundary |
| ByteOrder.Convert | projects/mpitofino/client_lib/mpitofino.cc:46-95 | exactly the words up to the rounded-up end are replaced by swapped ones; unaligned pointers are refused and change nothing |
| ClientWindow.OutstandingIsStatusSum | projects/mpitofino/client_lib/mpitofino.cc:462-576 | the outstanding requests are the sum of the ring statuses |
| ClientWindow.StatusRange | projects/mpitofino/client_lib/mpitofino.cc:462-576 | each status is 0, 1 or 2 |
| ClientWindow.NextFree | projects/mpitofino/client_lib/mpitofino.cc:459-461 | the next element is free exactly when the chunk four back is both sent and received |
| ClientWindow.PostLoop | projects/mpitofino/client_lib/mpitofino.cc:461-486 | posting keeps the loop's invariant: chunks lie one behind the other and end at the send position |
| ClientWindow.LoopEnds | projects/mpitofino/client_lib/mpitofino.cc:454-455 | the loop condition fails exactly when every chunk is posted, sent and received, after three events per chunk |
| ClientBuffers.FillNext | projects/mpitofino/client_lib/mpitofino.cc:475-479 | converting the next chunk disturbs no send buffer of a chunk in flight |
| ClientBuffers.StoreMore | projects/mpitofino/client_lib/mpitofino.cc:562-566 | converting the next result in order leaves all results so far in place although the vector loop writes into the following chunk |
| ClientBuffers.SourceExact | projects/mpitofino/client_lib/mpitofino.cc:72-77 | a call reads past its source exactly if its words are no whole number of vectors |
| ClientBuffers.DestExact | projects/mpitofino/client_lib/mpitofino.cc:62-94 | a whole call writes exactly as far as a single conversion of all its words would, so past its destination exactly if that does |
| ClientBuffers.SpillBehindLast | projects/mpitofino/client_lib/mpitofino.cc:562-566 | where the last chunk stays within the destination the one before it may not |
| ClientBuffers.ReadsPastExact | projects/mpitofino/client_lib/mpitofino.h:88-92 | some chunk's conversion reads past registered memory if and only if the destination is not 32-byte aligned and the count reaches the third chunk's last boundary |
| ClientBuffers.ReadsPastInput | projects/mpitofino/client_lib/mpitofino.h:88-92 | three full chunks into a destination one word behind a boundary read seven words too many |
| ClientSchedule.Finishes | projects/mpitofino/client_lib/mpitofino.cc:454-576 | every schedule three iterations per chunk longer than its idle ones posts, sends and receives every chunk |
| ClientSchedule.IdleWaits | projects/mpitofino/client_lib/mpitofino.cc:454-576 | an iteration is idle exactly when nothing can be posted and the poll brings no completion of an outstanding request, and then something is outstanding: the loop only waits for the network |
| Allreduce.Call.constructor | projects/mpitofino/client_lib/mpitofino.cc:427-452 | a call starts with nothing posted and the invariant true |
| Allreduce.Call.TryPost | projects/mpitofino/client_lib/mpitofino.cc:456-524 | posts exactly when data is left and the chunk four back is both sent and received; then the next chunk's words are in its send buffer, nothing else in memory changes, and one event fewer is left |
| Allreduce.Call.SendDone | projects/mpitofino/client_lib/mpitofino.cc:538-547 | a send completion frees half of its element, keeps the invariant, and leaves one event fewer |
| Allreduce.Call.RecvDone | projects/mpitofino/client_lib/mpitofino.cc:548-573 | a receive completion puts the chunk's result in place, keeps all earlier ones and leaves one event fewer |
| Allreduce.Call.Complete | projects/mpitofino/client_lib/mpitofino.cc:534-574 | the work request identifier leads back to the right ring element |
| Allreduce.Call.Poll | projects/mpitofino/client_lib/mpitofino.cc:526-576 | one poll's completions advance the counters as the replay says and write nothing beyond what one conversion of all words would write |
| ClusterInvariant.SentOk | projects/mpitofino/client_lib/mpitofino.cc:504-523 | a packet read from registered memory carries the words of its call's source while its chunk is in flight, whatever was posted since |
| ClusterInvariant.LandOk | projects/mpitofino/client_lib/mpitofino.cc:486-502 | a packet written into its receive buffer disturbs no packet that has arrived and no send buffer in flight |
| ClusterInvariant.RecvDoneOk | projects/mpitofino/client_lib/mpitofino.cc:548-573 | when a receive completes the whole chunk is in its buffer, and converting it keeps everything stored before |
| ClusterInvariant.NextOk | projects/mpitofino/client_lib/mpitofino.cc:429-452 | the next call may start at once: nothing of the finished one is left in flight |
| ClusterRuns.SendAllowed | projects/mpitofino/client_lib/mpitofino.cc:459-461 | whatever the ring loop has posted the slot protocol's window lets the worker send, across calls |
| ClusterRuns.DeliverTakes | projects/mpitofino/client_lib/mpitofino.cc:486-502 | a receive is posted for every result that arrives, so none is lost |
| ClusterRuns.StepOk | projects/mpitofino/client_lib/mpitofino.cc:417-579 | every step of a worker, the network or the switch keeps of every worker that send buffers hold what is still to be sent, receive buffers what has arrived, destinations what has been received, and the network what its sources hold |
| ClusterRuns.NetStep | projects/mpitofino/p4/collectives.p4:279-324 | every step on the network is a step of the slot protocol, and every step of a worker none |
| AllreduceSum.NetRun | projects/mpitofino/client_lib/mpitofino.cc:417-579 | the network's part of every run is a run of the slot protocol that carries what the workers' memory held |
| Allreduce.Call.Run | projects/mpitofino/client_lib/mpitofino.cc:417-579 | for every schedule of completions the counters end where the replay says; the loop has ended exactly if every chunk is posted, sent and received, and has ended in every schedule that is three iterations per chunk longer than its idle ones; then the whole destination holds the results, and nothing is written beyond what one conversion of all words would write |
| AllreduceSum.AllreduceCorrect | projects/mpitofino/client_lib/mpitofino.cc:417-579 | in every run of any number of workers making any sequence of calls, when a worker has finished a call, word k of its destination is the sum of word k of all workers' sources modulo 2^32 |
| AllreduceSum.NoDeadlock | projects/mpitofino/client_lib/mpitofino.cc:454-576 | a run of clients and switch can only get stuck when every worker has finished every call |
| AllreduceSum.Completes | projects/mpitofino/client_lib/mpitofino.cc:454-576 | whatever has happened so far, every run can go on to one in which all workers have finished all calls |
| AllreduceSum.RunsEnd | projects/mpitofino/client_lib/mpitofino.cc:454-576 | no run is longer than the slot protocol's total work, three events for each worker and chunk, and one for each worker and call |
| AllreduceSum.ReceiveArrived | projects/mpitofino/client_lib/mpitofino.cc:548-573 | whenever a receive completes, its buffer holds that chunk of the sums of all workers' words, which is what a call relies on |
| AllreduceSum.ChannelPlan | projects/mpitofino/sd/asic_driver.cc:563-824 | what the entries of any channel that fits set up serves any sequence of calls of its participants |
| Channels.Channel.RankDistinct | projects/mpitofino/sd/asic_driver.cc:664-673 | participants on one pipe get different bits |
| Channels.Channel.RankOnto | projects/mpitofino/sd/asic_driver.cc:664-673 | the bits on a pipe leave no gap |
| Tables.RequiredOnly | projects/mpitofino/sd/asic_driver.cc:500-857 | whatever a channel's pass writes is an entry the channel wants |
| Tables.RequiredAll | projects/mpitofino/sd/asic_driver.cc:500-857 | and every entry it wants is written with that action, if its participants differ in address or queue pair |
| Reconcile.NoClash | projects/mpitofino/sd/asic_driver.cc:500-857 | no entry other than a multicast node belongs to two complete channels |
| Reconcile.ReconciledExact | projects/mpitofino/sd/asic_driver.cc:469-1140 | after a pass the tables hold exactly the static entries and what complete channels want; for multicast nodes this holds if and only if channels in the same block of eight units agree on their ports |
| Reconcile.FirstTwoClash | projects/mpitofino/sd/asic_driver.cc:527-530 | the first two channels with participants on different ports: no node table serves both |
| Reconcile.PassClears | projects/mpitofino/sd/asic_driver.cc:889-916 | a unit that goes out of use is among those whose registers are cleared |
| Reconcile.ClearsUsed | projects/mpitofino/sd/asic_driver.cc:889-916 | no unit of a complete channel is cleared, and none that was not in use |
| AsicDriver.ASICDriver.constructor | projects/mpitofino/sd/asic_driver.cc:123-192 | on a switch with clear registers no channel is served; the flood group has one node each for exactly the ports that are multiples of 4 below 64 or from 384 to 447, the broadcast group one for these and for the CPU port 64, and the node of a port copies to that port |
| AsicDriver.StaticDelivers | projects/mpitofino/sd/asic_driver.cc:128-190 | the static groups reach all 16 front panel ports of pipe 0 and of pipe 3, once each, and the broadcast group the CPU port too |
| AsicDriver.StillDelivers | projects/mpitofino/sd/asic_driver.cc:123-192 | whatever channels come and go, flooded and broadcast packets still reach exactly these ports |
| AsicDriver.PassRecycles | projects/mpitofino/sd/asic_driver.cc:860-1207 | the units a pass clears are exactly those that were in use before and are not any more |
| AsicDriver.CleanStart | projects/mpitofino/sd/asic_driver.cc:1142-1207 | the registers of a unit that no channel uses are those of an idle pipe, in which the slot protocol starts |
| AsicDriver.ASICDriver.AddGroup | projects/mpitofino/sd/asic_driver.cc:504-560 | adds the channel's multicast nodes and group |
| AsicDriver.ASICDriver.AddParticipants | projects/mpitofino/sd/asic_driver.cc:563-677 | fails exactly when a pipe has too many participants; otherwise each gets its bit, address and reflector entry, and the full maps are those of the participants |
| AsicDriver.ASICDriver.AddHop | projects/mpitofino/sd/asic_driver.cc:679-762 | entries for inter-pipe and recirculated packets on pipe 3 exactly when both pipes have participants, with one more bit in pipe 3's full map |
| AsicDriver.ASICDriver.AddComplete | projects/mpitofino/sd/asic_driver.cc:765-824 | completion and second-pass entries of the pipes with participants, chained to pipe 3 when both have some |
| AsicDriver.ASICDriver.AddChannel | projects/mpitofino/sd/asic_driver.cc:500-857 | adds all of the channel's entries, or fails when it does not fit |
| AsicDriver.ASICDriver.DeleteExcess | projects/mpitofino/sd/asic_driver.cc:860-1140 | deletes exactly the entries that do not survive, and names the units that lost a selector entry |
| AsicDriver.ASICDriver.ClearRegisters | projects/mpitofino/sd/asic_driver.cc:1142-1207 | the 256 slots of the given units become empty in the registers of both pipes and no other slot changes |
| AsicDriver.ASICDriver.OnChannels | projects/mpitofino/sd/asic_driver.cc:469-1208 | one whole pass: reconciled tables and cleared registers, or failure exactly when some complete channel does not fit |
| AsicDriver.ASICDriver.Notify | projects/mpitofino/sd/asic_driver.cc:469-1208 | from one notification to the next the tables stay exact; the registers of exactly the units that go out of use are cleared, all others keep what they hold, and units not in use stay clear |
| ChannelProgram.RoomForBits | projects/mpitofino/sd/asic_driver.cc:594-595 | the limits leave room for the two inter-pipe bits on pipe 3 |
| ChannelProgram.RanksFill | projects/mpitofino/sd/asic_driver.cc:664-673 | a pipe's full map is exactly the set of its participants' bits |
| ChannelProgram.ChannelProgrammed | projects/mpitofino/sd/asic_driver.cc:563-824 | for any placement that fits, the entries set up a valid instance of the slot protocol: distinct bits, matching full maps, a bit of its own between the pipes, the client's window |
| ChannelProgram.PriorityIrrelevant | projects/mpitofino/sd/asic_driver.cc:597-762 | whichever matching ternary entry wins, the packet gets the same unit, and the same bitmap unless it is a second pass |
| ChannelProgram.ClearPorts | projects/mpitofino/p4/mpitofino.p4:107-116 | the parser marks packets on port 68 of each of the four pipes and on no other port, so none on a front panel port |
| ChannelProgram.HopSource | projects/mpitofino/sd/asic_driver.cc:597-618 | a packet that was selected on pipe 0 comes from a participant there |
| ChannelProgram.OwnSelection | projects/mpitofino/sd/asic_driver.cc:597-662 | a participant's packets are selected for its channel's unit with its own bit, its acknowledgements reflected to its own queue pair |
| ChannelProgram.HopSelection | projects/mpitofino/sd/asic_driver.cc:688-762 | packets from pipe 0 are selected on pipe 3 with the bit between the pipes, also when they come back from recirculation |
| ChannelProgram.AlwaysSelected | projects/mpitofino/sd/asic_driver.cc:597-762 | wherever a participant's packet comes by in the switch, some entry selects its channel's unit |
| ChannelProgram.ExactKnows | projects/mpitofino/sd/asic_driver.cc:597-662 | the tables select each participant's packets with its bit, reflect its acknowledgements to its own queue pair, and rewrite copies for it, on pipe 1 for ports of pipe 0 and on pipe 2 for the others, to its MAC, address and queue pair |
| ChannelProgram.FanOutReaches | projects/mpitofino/sd/asic_driver.cc:505-645 | the group has one node per participant; its copy comes to the pipe whose address entry names that participant and returns to the participant's own port |
| ChannelProgram.RidsAgree | projects/mpitofino/sd/asic_driver.cc:508-536 | replication ids of the group and of the address entries agree on a participant exactly when none before it is on pipe 1 or 2 |
| Datapath.OneFull | projects/mpitofino/sd/asic_driver.cc:765-787 | exactly one bitmap counts as complete for a channel on a pipe, the one with all its participants' bits |
| Datapath.ChannelLoaded | projects/mpitofino/p4/collectives.p4:226-245 | a pipe that has loaded the tables knows a live channel's unit, its complete bitmap and where its results go |
| Datapath.Load | projects/mpitofino/sd/asic_driver.cc:765-857 | the driver's entries for a pipe become that pipe's tables |
| Datapath.ExactLoadable | projects/mpitofino/sd/asic_driver.cc:765-857 | what the driver leaves for a well-formed repository gives every unit one complete bitmap on each pipe, so it can be loaded |
| Datapath.SelectedRight | projects/mpitofino/sd/asic_driver.cc:597-762 | whichever matching entry wins, a participant's packet is selected for its channel's unit, with its own bit on its own pipe and the bit between the pipes on the other |
| Datapath.ComesBack | projects/mpitofino/sd/asic_driver.cc:776-787 | on each pipe with participants the entry of the complete bitmap sends to that pipe's port 68, where the parser marks the packet for its second pass |
| Datapath.HopsOn | projects/mpitofino/sd/asic_driver.cc:795-804 | for a connected channel pipe 0's second-pass entry sends to port 448 on pipe 3, which is not a recirculation port and whose packets are selected for the channel |
| Datapath.Process | projects/mpitofino/p4/collectives.p4:250-324 | one pass of any packet of a channel, table lookup included, is the first or second pass of the slot protocol that the channel's entries set up; the packet that completes its slot goes to a port of its own pipe where the parser marks it for the second pass, a second pass on pipe 0 of a connected channel goes to a port of pipe 3 where it is selected and not marked, any other to the channel's group; other units' slots stay, and those of units not in use stay clear |
| Switch.Switch.constructor | projects/mpitofino/sd/asic_driver.cc:23-192 | without channels nothing is under way |
| Switch.Switch.Add | projects/mpitofino/sd/state_repository.cc:93-100 | a new channel disturbs no channel's slot protocol |
| Switch.Switch.Update | projects/mpitofino/sd/state_repository.cc:102-129 | exactly the participant that asks has the given data, and once its channel is complete the tables know all its participants with theirs; a channel that becomes complete starts with idle pipes on registers of its own, and no other channel's slot protocol is disturbed |
| Switch.Switch.Remove | projects/mpitofino/sd/state_repository.cc:131-140 | a removed channel's registers are cleared under no other channel's slot protocol |
| Switch.Switch.Packet | projects/mpitofino/p4/collectives.p4:250-324 | whatever happened before, a channel's packet makes its own slot protocol's pass and no other channel notices; it is dropped, or comes by again as a marked packet of the same pipe or as an unmarked one of pipe 3, or goes to the channel's group |
| Switch.Switch.Stray | projects/mpitofino/p4/collectives.p4:262-286 | a packet without a channel passes unchanged and changes no register |
| Switch.TracksPass | projects/mpitofino/p4/collectives.p4:29-37 | a pass on one unit's registers leaves the slots of all other channels' units those of their own slot protocols |
| ControlState.JoinFabric | projects/mpitofino/sd/distributed_control_plane_agent.cc:283-299 | a further participant's fabric queue pair starts with the channel's prefix and differs from those of all participants with its address |
| ControlState.CountIpIs | projects/mpitofino/sd/distributed_control_plane_agent.cc:283-299 | the count behind a new fabric queue pair is the number of known participants with its address |
| ControlState.JoinEnters | projects/mpitofino/sd/state_repository.cc:119-125 | all six fields of the participant are those of the request, with a fabric queue pair that starts with the channel's prefix, and nothing else of the channel changes |
| ControlState.RepoWellFormed | projects/mpitofino/sd/state_repository.cc:93-140 | a repository with distinct units and prefixes gives the driver all it relies on; address and fabric queue pair are unique over all channels |
| ControlState.ChangesFollow | projects/mpitofino/sd/state_repository.cc:93-140 | additions, updates and removals keep complete channels or remove them, and nothing that stays mentions a removed participant |
| StateRepository.StateRepository.GetFreeQp | projects/mpitofino/sd/state_repository.cc:143-172 | from any cursor, finds the first free prefix in cyclic order from 1 to 65535, and fails exactly when all are taken |
| StateRepository.BeforeIsNearer | projects/mpitofino/sd/state_repository.cc:143-172 | cyclic order from the cursor is the order of distances from it modulo 2^16 |
| StateRepository.StateRepository.GetFreeUnit | projects/mpitofino/sd/state_repository.cc:174-197 | the least free unit, at most the number of channels; fails exactly when all 256 are taken |
| StateRepository.StateRepository.AddChannel | projects/mpitofino/sd/state_repository.cc:93-100 | refuses an existing tag; otherwise the channel is there and the driver is up to date; no register changes |
| StateRepository.StateRepository.Update | projects/mpitofino/sd/state_repository.cc:102-129 | refuses an unknown tag or participant, ignores a repetition, and otherwise exactly that participant has the given client id, address, queue pair, fabric queue pair, MAC and port, or the driver fails because a channel does not fit; if the channel is now complete, the tables know each participant by address and fabric queue pair and rewrite copies for it to its MAC, address and queue pair, and its unit's registers are idle on both pipes; no register changes |
| StateRepository.StateRepository.RemoveChannel | projects/mpitofino/sd/state_repository.cc:131-140 | refuses an unknown tag; otherwise exactly that channel is gone, the driver is up to date, and exactly its unit's registers are cleared if it was complete; the driver never fails |
| StateRepository.UnitsUsed | projects/mpitofino/sd/state_repository.cc:174-197 | n units in use need n channels |
| StateRepository.RoomLeft | projects/mpitofino/sd/state_repository.cc:143-197 | with fewer than 256 channels both allocators succeed |
| Agent.InsertAllOk | projects/mpitofino/sd/distributed_control_plane_agent.cc:173-178 | each client id gets one participant, in ascending order, whatever the order and repetition in the request |
| Agent.HoldsMore | projects/mpitofino/sd/distributed_control_plane_agent.cc:213-225 | a request's reply joins those held: one for each known participant, with its own queue pair |
| Agent.Asked | projects/mpitofino/sd/distributed_control_plane_agent.cc:218-236 | counting replies tells exactly when the channel is complete |
| Agent.UpdateServes | projects/mpitofino/sd/distributed_control_plane_agent.cc:192-200 | the request fails exactly if the client is no participant or the completed channel does not fit |
| Agent.HeldServed | projects/mpitofino/sd/distributed_control_plane_agent.cc:218-236 | replies held or sent after a request are for connected nodes |
| Agent.RepliedServed | projects/mpitofino/sd/distributed_control_plane_agent.cc:213-236 | in one life of a channel nothing is sent before the last participant has asked, and then exactly one reply to each |
| Agent.Agent.GetNextFabricQp | projects/mpitofino/sd/distributed_control_plane_agent.cc:283-299 | the channel's prefix followed by the number of its known participants with the address, modulo 256 |
| Agent.Agent.OnGetChannel | projects/mpitofino/sd/distributed_control_plane_agent.cc:156-236 | succeeds exactly if the port is in range, the client is among the channel's participants and they fit on their pipes once all are known; then one participant of the channel has the client id, address, queue pair, MAC and port of the request and a fabric queue pair with the channel's prefix, and nothing else changes; nobody gets a reply until the last participant has asked, the tables know every participant of the complete channel with its data and its registers are idle, and then each gets exactly one with its own queue pair, at a connected node, and has had none before in the life of the channel; the node owns the channel |
| Agent.Agent.OnUnref | projects/mpitofino/sd/distributed_control_plane_agent.cc:239-280 | giving up takes the channel from the node, removes it exactly if no node owns it and clears its registers, and only reports what was not owned |
| Agent.Agent.OnDisconnect | projects/mpitofino/sd/distributed_control_plane_agent.cc:134-152 | a closed connection takes all the node's channels, removes exactly those nobody else owns and clears exactly their registers; held replies still all go to connected nodes if and only if no remaining channel holds one for this node |
| HeldReplies.ReplyForNobody | projects/mpitofino/sd/distributed_control_plane_agent.cc:134-152 | two of three participants ask and one of their node daemons disconnects: its reply stays held for the channel that the other keeps |
| Agent.Agent.CheckRemove | projects/mpitofino/sd/distributed_control_plane_agent.cc:256-272 | the channel is removed, and its registers cleared, exactly if it has no owner |
| NodeDaemon.NodeDaemon.OnGetChannel | projects/mpitofino/nd/node_daemon.cc:258-292 | while no switch is known nothing happens; otherwise the channel is recorded as used, the request goes to the switch with the node's own addresses and port, and a reply is awaited for that client and tag |
| NodeDaemon.NodeDaemon.OnClientGone | projects/mpitofino/nd/node_daemon.cc:217-255 | gives up, once each, exactly the channels that no other application on the node uses |
| Ownership.TakeUnrefs | projects/mpitofino/nd/node_daemon.cc:217-255 | giving up channels that are owned is sound and takes exactly them |
| Ownership.HeldLeave | projects/mpitofino/nd/node_daemon.cc:217-255 | what the remaining applications hold is what was held less what is given up |
| Ownership.StepInv | projects/mpitofino/sd/distributed_control_plane_agent.cc:99-153 | every event keeps each node's undelivered messages leading to what its applications hold |
| Ownership.ChannelsFollowUse | projects/mpitofino/sd/distributed_control_plane_agent.cc:239-280 | in every run no unowned channel is given up, and once all messages have arrived a channel exists on the switch if and only if some application on some node holds it |
| Icrc.RunLinear | projects/mpitofino/p4/mpitofino.p4:614-618 | the register is linear over GF(2) in start value and message, for all messages |
| Icrc.PartsApart | projects/mpitofino/p4/mpitofino.p4:614-618 | a message splits into parts padded with zeros to their distance from the end |
| Icrc.BurstTells | projects/mpitofino/p4/mpitofino.p4:614-618 | two messages that differ, but only within 32 bits in a row, have different hashes |
| IcrcReference.StepMirrors | other_work/ib_checksum/checksum.py:27-35 | one step of the left-shifting register is one step of the reflected one, mirrored |
| IcrcReference.RunMirrors | other_work/ib_checksum/checksum.py:37-44 | so are whole messages from any start value |
| IcrcReference.ReferenceIsSwappedHash | other_work/ib_checksum/checksum.py:46-90 | for every message the reference's value is the byte swap of the reflected CRC-32 |
| IcrcReference.BitsOfAt | other_work/ib_checksum/checksum.py:37-44 | bit 8k + i of a message of bytes is bit i of byte k |
| IcrcReference.BytesApart | other_work/ib_checksum/checksum.py:46-90 | two messages of bytes that differ, but only within four bytes in a row, have different values |
| IcrcReference.ICRC.UpdateBit | other_work/ib_checksum/checksum.py:27-35 | feeding a bit appends it to what the register stands for |
| IcrcReference.ICRC.UpdateByte | other_work/ib_checksum/checksum.py:37-40 | bit i of the byte, counted from the lowest, is the i-th of the eight bits fed |
| IcrcReference.ICRC.UpdateBytes | other_work/ib_checksum/checksum.py:42-44 | bit i of byte k is fed as number 8k + i, behind what was fed before |
| IcrcReference.ICRC.Value | other_work/ib_checksum/checksum.py:46-90 | the value of the bits fed so far, which `UpdateByte` and `UpdateBytes` place one by one, is the byte swap of their reflected CRC-32, and taking it changes nothing |
| IcrcSplit.SplitIsWhole | projects/mpitofino/p4/mpitofino.p4:305-457 | for every header and payload, of any lengths, the four hashes differ from the hash of the whole by a value that depends on the lengths and on what precedes the header only |
| IcrcPacket.ResultIcrcCorrect | projects/mpitofino/p4/mpitofino.p4:609-720 | for every header and payload of a result packet the switch's checksum of four split hashes and a literal summand equals the reference over routing header, masked headers and payload |
| IcrcPacket.AckIcrcCorrect | projects/mpitofino/p4/mpitofino.p4:570-608 | for every reflected acknowledgement the switch's checksum equals the reference |
| IcrcPacket.ResultIcrcProtects | projects/mpitofino/p4/mpitofino.p4:609-720 | the checksum is the reference's over eight bytes of 255, the 40 header bytes with 255 at exactly those seven offsets, and the 256 payload bytes |
| IcrcPacket.AckIcrcProtects | projects/mpitofino/p4/mpitofino.p4:572-604 | an acknowledgement's checksum is the reference's over eight bytes of 255 and its 44 header bytes with 255 at exactly those seven offsets |
| IcrcPacket.ResultIcrcInvariant | projects/mpitofino/p4/mpitofino.p4:617-642 | headers that agree on all bytes but type of service (1), time to live (8), IP checksum (10, 11), UDP checksum (26, 27) and the reserved transport byte (32) have equal checksums |
| IcrcPacket.AckIcrcInvariant | projects/mpitofino/p4/mpitofino.p4:572-602 | acknowledgements whose headers agree on all bytes but those seven have equal checksums |
| IcrcPacket.ResultIcrcTells | projects/mpitofino/p4/mpitofino.p4:617-642 | for packets that agree but for four bytes in a row of header and payload, the checksums are equal if and only if the payloads and all header bytes other than those seven agree |
| IcrcPacket.AckIcrcTells | projects/mpitofino/p4/mpitofino.p4:572-602 | for headers of acknowledgements that agree but for four bytes in a row, the checksums are equal if and only if all bytes other than those seven agree |
| IcrcPacket.LeadIsZeros | projects/mpitofino/p4/mpitofino.p4:604-604 | the masked local routing header acts like 32 zero bits |
| InternetChecksum.Compute | projects/mpitofino/common/utils.cc:22-42 | up to 131074 bytes the loop with its 32-bit accumulator and its folding returns the one's complement checksum |
| InternetChecksum.OddPadded | projects/mpitofino/common/utils.cc:33-34 | an odd last byte counts as if a zero byte followed |
| InternetChecksum.OverflowFree | projects/mpitofino/common/utils.cc:27-36 | the accumulator overflows for no buffer of a size exactly when the size is at most 131074 |
| InternetChecksum.StoredChecksumVerifies | projects/mpitofino/sd/packet_processor.cc:299-310 | the checksum stored in its zeroed field makes a second computation yield zero |
| InternetChecksum.ByteOrderIndependent | projects/mpitofino/common/utils.cc:22-42 | native computation stores the same bytes as one in network order, odd lengths included |

## Left out

- The tables of the switch are one map from keys to actions, and the driver's clean-up loops are two loops over a snapshot of its keys; the order of table writes within a pass and deletion during iteration are not captured.
- The `set`s and `map`s that the code iterates in key order are iterated in any order, except participants, whose order matters.
- AsicDriver.ASICDriver.AddGroup: channels with participants on pipes 1 or 2 are excluded; the loop skips those participants, other loops count them, and `ChannelProgram.RidsAgree` says what this does to replication ids.
- AsicDriver.ASICDriver.AddParticipants: participants on pipes 1 and 2 are excluded, because the code's loops treat them differently.
- AsicDriver.ASICDriver.AddHop: participants on pipes 1 and 2 are excluded; the code would give each such pipe a bit but only one port.
- AsicDriver.ASICDriver.AddComplete: participants on pipes 1 and 2 are excluded.
- AsicDriver.ASICDriver.AddChannel: participants on pipes 1 and 2 are excluded.
- AsicDriver.ASICDriver.OnChannels: participants on pipes 1 and 2, and clearing of units of 64 and above, which have no registers of their own, are excluded.
- StateRepository.StateRepository.Update: changed data of a known participant and an address of zero are excluded, because stale entries of the old data stay in the tables.
- Agent.Agent.OnGetChannel: repeated requests and address changes of a known participant, a channel without participants or with more than 255, and 64 or more channels are excluded, because the code does not handle them; after an exception nothing is stated.
- NodeDaemon.NodeDaemon.OnGetChannel: the type of the collective, which is always the same, is left out of the messages.
- The forwarding of replies from the node daemon to its applications, and the client's request for a channel.
- Ethernet switching, MAC learning, address resolution, ICMP and the packet processor, the topology discovery protocol, configuration files.
- Sockets, event loops, message framing, queue pair setup, and real time; a poll of the completion queue is a parameter.
- Loss, duplication and retransmission.
- Header fields other than the ones that select, address or number a packet; IP checksums in the egress deparser.
