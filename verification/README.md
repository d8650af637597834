# CAPE sandbox: verified models

Dafny models of the parts of the CAPE malware sandbox that hold real algorithms or protocols, with proofs of
what they promise and, where they promise more than they keep, of when exactly they keep it.
`dafny verify dfyconfig.toml` checks everything.

## What is modelled

**Captures** (`Capture`, `FlowOrder`, `KeyedSort`, `SortCap`, `BatchSort`, `SortedCapture`, `FlowStream`, `PcapRun`,
`RecordedStreams`). A capture is sorted by flow and time with an external merge sort whose chunk files hold bare
packets, so every chunk is keyed a second time by a fresh reader. A stream is then read back from the sorted file,
at an offset that the packet loop recorded for the connection. `SortCap` and `BatchSort` are the classes and loops
of the code; `SortedCapture` and `FlowStream` prove what the sorted file and the stream are; `PcapRun` gives the
packet loop a declarative specification; `RecordedStreams` joins the three.

**Process logs** (`CallRuns`, `LogTables`, `ProcessLog`, `ProcessTree`). The log iterator folds runs of equal calls, numbers them,
stops at a limit and can be restarted; with `ram_boost` it works from a cache. The process tree is built by
repeated depth-first insertion.

**Distributed analysis** (`DistMaster`, `DistSafety`, `DistFetch`, `DistSettle`, `VmTags`). The master's threads as atomic steps over
the task table, the fetch queue and the cleaner queue, with safety over every interleaving and what every step changes;
and the matching of a task's tags against the combinations a node's machines offer.

**Report store** (`CallChunks`, `CallStore`, `LargeDocs`). Call lists are cut into chunk documents of a hundred and
read back; the store is shown to stand for a plain map from report id to report. A report the database refuses as too
large is cut down key by key.

**Smaller machines** (`Throttle`, `Rooter`, `MaecObjects`, `Maec`, `MaecFacts`). The sliding window of a plan's rate limit, the
routing scripts over iptables chains, and the object table of the MAEC report with everything that refers into it, and what each kind of object says.

`Wrappers`, `Strings` and `Multisets` hold an option type, a few Python string operations and two facts about multisets.

## Where the code keeps less than it seems to promise

Each of these but the last has a lemma; where there is an exact condition, the lemma that states it comes first.

- A capture of several chunks is sorted under keys that identify conversations exactly when in every chunk each flow's
  first packet runs the way the flow was keyed first (`MergedSortedIff`); otherwise a stream can lose packets
  (`SplitConversation`), though it need not (`UnkeptYetWhole`).
- The file position remembered for a connection is its own exactly when the packet before was read to its end; what a
  viewer finds there otherwise is the conversation of the packet left unread (`RecordedOffsetStreams`,
  `AtRecordedOffset`, `StaleOffset`). Everything without an IPv4 header counts as one flow (`Ipv6StreamsMix`).
- The parser's table of explained indices is not cleared by `reset`. A log reads the same every time exactly when each
  call that comes before any explanation of its index decodes the same under the first table and the one the whole log
  leaves (`EventsStableIff`); if readings may stop anywhere, exactly when no message changes what such a call means
  (`AnyReadingIff`, `LateExplanation`). A refused message ends the pass if a call is due there (`PassLosslessIff`). With
  `ram_boost` and no log file the iterator has no cache to read and raises `AttributeError` (`Next`).
- A process listed before a parent that is itself a child becomes a root (`RootsAreOrphansIff`, `StrayGrandchild`).
- A worker may finish a task, and the fetcher see it, before the master has committed the task's id; the report is then
  deleted unread (`RunSafeIff`, `RaceLoses`). A copy that fails leaves its id in `current_queue`: a row can still be
  copied exactly when its pair is on the worker and a thread has it in hand, or it is open and queued or not in
  `current_queue` (`CopyableIff`, `FailedCopyAbandonsIff`). A row whose task was removed unread stays open for good
  (`SettleIff`).
- Removing "x86," from a column of tags also cuts into any tag that ends in x86 (`CleanUpExactIff`, `TornTag`). A torn
  column can still find a machine (`TornYetEligible`); when any column does is told by `EligibleIff`. A node also takes
  tasks it has only endings of tags for, two of them on one machine being enough (`TakenIff`).
- Storing a report orphans its chunks if the document is refused, or shrunk until its process list is gone (`Run` of
  `CallStore`). The shrinking loop does not end if the first key holds an empty list, no string is left in the report
  and the database goes on refusing it (`StuckRounds`).
- A MAEC report is written for file targets only; two processes of one name, command line and first-seen time share an
  object (`UnsharedIff`); all https URLs share a host (`HttpsHost`); relationships to dropped files point at instances
  that are not in the package (`Run` of `Maec`).
- The unit "m" of a plan is one second and "h" is sixty, where the names suggest minute and hour; the model follows
  the code (`UnitWindow`).
- The test that a pair is not yet queued for fetching compares pairs of another shape, so it never holds anything back;
  the model queues accordingly.

## Model

| member | source | states |
|---|---|---|
| `SortCap.ReadShape` | modules/processing/network.py:1172-1190 | a reader keeps every packet in order, stamps its key with the packet time, and its counter makes all keys different |
| `SortCap.OrientKeepsOneOrientation` | modules/processing/network.py:1180-1189 | adding the flow of one more packet to `conns` never puts a tuple and a different mirror of it side by side, and a conversation already met keeps its orientation |
| `SortCap.KeyIsFirstTuple` | modules/processing/network.py:1172-1190 | every packet is keyed with the tuple of the first packet of its conversation |
| `SortCap.SameKeyIffSameConv` | modules/processing/network.py:1172-1190 | two packets read by one reader get the same flow key iff their tuples are equal or mirrored |
| `SortCap.SortCap.constructor` | modules/processing/network.py:1143-1149 | a new reader is fresh: what it will deliver is the first reading of its file |
| `SortCap.SortCap.Iter` | modules/processing/network.py:1158-1164 | opening keeps position, flows met and what is still to be read |
| `SortCap.SortCap.Close` | modules/processing/network.py:1166-1170 | a closed file is read again from its start, but with the flows met so far |
| `SortCap.SortCap.Write` | modules/processing/network.py:1151-1156 | the first write truncates, later ones append; a write without packet still creates the file |
| `SortCap.SortCap.Next` | modules/processing/network.py:1172-1190 | delivers the keyed packets of the file one by one, each exactly once, then stops |
| `FlowOrder.StrLeIff` | modules/processing/network.py:1114 | text is ordered by its first different character, a prefix before what it begins |
| `FlowOrder.KeyedLeIff` | modules/processing/network.py:1107-1124 | keyed packets are ordered by source address, destination address, source port, destination port, protocol, then time, then counter; the packet itself decides only between equal keys |
| `FlowOrder.KeyedLeTransitive` | modules/processing/network.py:1114-1124 | the whole comparison, packet bytes included, is transitive |
| `KeyedSort.SortMultiset` | modules/processing/network.py:1114 | sorting a chunk permutes it |
| `KeyedSort.SortSorted` | modules/processing/network.py:1114 | a sorted chunk is in order of flow, then time |
| `KeyedSort.SortStable` | modules/processing/network.py:1114 | packets of one flow and time stay in reading order |
| `KeyedSort.OfFlowIsInterval` | modules/processing/network.py:1114-1128 | in a sorted sequence each flow is one uninterrupted stretch |
| `KeyedSort.MergeMultiset` | modules/processing/network.py:1124 | merging loses and adds nothing, whether or not the chunks are sorted |
| `KeyedSort.MergeSorted` | modules/processing/network.py:1124 | merging sorted chunks gives a sequence in order of flow, then time |
| `KeyedSort.MergeOne` | modules/processing/network.py:1124 | a single chunk comes out of the merge unchanged, sorted or not |
| `KeyedSort.LeastIsFirst` | modules/processing/network.py:1124 | the merge takes next the least head by the whole comparison, and of equal ones that of the earliest chunk |
| `BatchSort.TakeUpTo` | modules/processing/network.py:1111 | takes at most the buffer size from the reader, and less only at the end |
| `BatchSort.WriteChunk` | modules/processing/network.py:1114-1121 | a chunk file holds the sorted packets without keys, and a reader over it starts afresh |
| `BatchSort.WriteChunks` | modules/processing/network.py:1109-1121 | the input ends up cut into chunk files, each with a fresh reader of its own |
| `BatchSort.Prime` | modules/processing/network.py:1124 | the merge opens every chunk and holds its first re-keyed element |
| `BatchSort.Choose` | modules/processing/network.py:1124 | the merge takes the least head by the full key, ties going to the earlier chunk |
| `BatchSort.Advance` | modules/processing/network.py:1124-1125 | one step of the merge writes one packet and refills the head from the same chunk |
| `BatchSort.MergeInto` | modules/processing/network.py:1123-1128 | the output file is the merge of the re-keyed chunks, key by key |
| `BatchSort.BatchSort` | modules/processing/network.py:1102-1135 | the output file is exactly what the specification of sort, re-key and merge gives for the input and buffer |
| `SortedCapture.SortKeepsPackets` | modules/processing/network.py:1102-1135 | the output is a permutation of the input iff the buffer is at least 1 or the capture is empty, whatever keys the second reading finds |
| `SortedCapture.ReadCanonical` | modules/processing/network.py:1172-1190 | the first reading keys every packet by time and by the orientation its conversation was first met in |
| `SortedCapture.OfFlowIsConv` | modules/processing/network.py:1172-1190 | selecting by key and selecting by conversation are the same selection |
| `SortedCapture.RekeyIsLeader` | modules/processing/network.py:1119-1124 | reading a chunk file again keys each packet with the tuple of the packet that leads its flow there |
| `SortedCapture.RekeyAgreesIff` | modules/processing/network.py:1119-1124 | a chunk file read again gives the original flow keys iff each flow's first packet in sorted order points the way the flow was keyed |
| `SortedCapture.MergedSortedIff` | modules/processing/network.py:1107-1128 | for every buffer of at least 1 the merged capture is in order of flow, then time, under keys that identify conversations iff in every chunk each flow's first packet in sorted order has the orientation of the first reading |
| `SortedCapture.OneChunk` | modules/processing/network.py:1107-1128 | a capture that fits the buffer comes out as the sorted first reading, whatever the second reading finds |
| `FlowStream.NextConnectionPackets` | modules/processing/network.py:1235-1255 | yields one entry for each packet up to the first one of another conversation; entry i has the addresses and ports of packet i's own tuple and the bytes of its own TCP or UDP part, and `direction` is true exactly if that tuple equals the first packet's |
| `FlowStream.StreamTells` | modules/processing/network.py:1200-1255 | the same of any stream from its first packet, whose own entry is there and goes forward |
| `FlowStream.ViewsTell` | modules/processing/network.py:1200-1255 | what an entry says of its packet, in the fields of the packet's layers: sender, receiver, ports where the first parse found them, payload, direction |
| `FlowStream.PacketsForStream` | modules/processing/network.py:1258-1266 | streams from the packet at the offset; an empty capture raises at the first read |
| `FlowStream.StableTimeOrderUnique` | modules/processing/network.py:1235-1255 | there is only one order by time that keeps simultaneous packets as they were |
| `FlowStream.SortedConversation` | modules/processing/network.py:1102-1190 | for a capture that fits the buffer the sorted one holds each conversation's packets in stable time order |
| `FlowStream.SortThenStream` | modules/processing/network.py:1102-1266 | streaming the sorted capture from a conversation's first packet yields exactly the original packets of that conversation in stable time order; entry i has the tuple and the bytes of the i-th of them, and goes forward exactly if its tuple equals the first one's |
| `FlowStream.ConversationOpens` | modules/processing/network.py:1102-1266 | every packet's conversation has such a first packet in the sorted capture |
| `FlowStream.ManyChunksThenStream` | modules/processing/network.py:1102-1266 | for any number of chunks, orientations kept (which is enough, not necessary), streaming still yields the whole conversation, nothing else, in time order, each entry telling of its own packet |
| `FlowStream.UnkeptYetWhole` | modules/processing/network.py:1107-1128 | a concrete capture of two chunks whose orientations are not kept and which still streams whole |
| `FlowStream.SplitConversation` | modules/processing/network.py:1107-1128 | a concrete capture whose answer is sorted away from its request because a chunk turned the flow round, so that the stream loses it |
| `PcapRun.RecordedAre` | modules/processing/network.py:709-717 | a connection entry exists for a packet iff the packet is the first of its conversation, in that packet's orientation (RecordedIff says it in the fields of the packets) |
| `PcapRun.PickedIff` | modules/processing/network.py:705-749 | an IP packet is TCP data, bare TCP or UDP between two ends exactly if its addresses and the ports, payload and numbers of its parsed or re-parsed segment say so, sender first |
| `PcapRun.UnreadIff` | modules/processing/network.py:699-758 | a packet is left unread exactly if its header promises TCP, UDP or ICMP and neither parse finds that |
| `PcapRun.RecordedIff` | modules/processing/network.py:709-749 | the entries are, for each conversation, its first packet's source address and port, destination address and port, position and time, where no earlier packet with data (for UDP: any) goes between the same ends either way |
| `PcapRun.FirstTsIs` | modules/processing/network.py:677-680 | the reference time is the first time stamp that is not zero |
| `PcapRun.RecordedOnce` | modules/processing/network.py:712-717 | no two connection entries belong to the same unordered conversation |
| `PcapRun.OffsetExactIff` | modules/processing/network.py:676-764 | the recorded position is the packet's own iff the packet before it did not leave the loop body early; otherwise it is that of the first of the unread packets before it |
| `PcapRun.TwoRetries` | modules/processing/network.py:726-729 | the counter reaches the reporting threshold iff two different packets repeat the numbers of the payload-less packet before them on their 4-tuple |
| `PcapRun.RetryIff` | modules/processing/network.py:719-731 | a retry is a TCP packet without payload whose sequence and acknowledgement numbers are those of the last such packet before it between the same addresses and ports |
| `PcapRun.DeadIff` | modules/processing/network.py:719-805 | the reporting condition in the fields of the packets |
| `PcapRun.Pcap.constructor` | modules/processing/network.py:114-161 | a new object has recorded nothing |
| `PcapRun.Pcap.TcpPayload` | modules/processing/network.py:709-718 | a packet with payload records its conversation if it is new and marks its destination alive |
| `PcapRun.Pcap.TcpEmpty` | modules/processing/network.py:719-731 | a packet without payload counts a retry if it repeats the numbers last seen on its 4-tuple, and becomes the last seen |
| `PcapRun.Pcap.Udp` | modules/processing/network.py:743-749 | a UDP packet records its conversation if it is new, payload or not |
| `PcapRun.Pcap.Run` | modules/processing/network.py:676-764 | one pass leaves exactly the declarative records of the whole capture: the retries and answers, and a connection entry, in the fields of the packet, for each packet that opens a TCP or UDP conversation |
| `PcapRun.Pcap.DeadReport` | modules/processing/network.py:796-805 | a host and port is reported dead, once, iff two different packets with this destination address and port repeat the numbers of the last payload-less packet between the same ends, and no packet with them carries payload |
| `RecordedStreams.TcpPairIsConv` | modules/processing/network.py:709-717 | over IPv4 the packet loop and the sort agree on what a TCP conversation is |
| `RecordedStreams.NoDataBefore` | modules/processing/network.py:709-717 | from the packet a conversation is recorded at, or from any earlier one, on comes all of its payload, if its data packets were parsed as TCP at first |
| `RecordedStreams.RecordedOffsetStreams` | modules/processing/network.py:676-1266 | for any capture within the buffer: the recorded offset of an IPv4 TCP conversation is its own packet iff the packet before was read; the stream from that packet carries all its payload, nothing of another conversation, in the stable time order of the original capture |
| `RecordedStreams.AtRecordedOffset` | modules/processing/network.py:676-1266 | the stream at the recorded offset is that of the packet there; it carries the recorded conversation with all its payload iff that packet belongs to it, and nothing of it otherwise; only unread packets lie between |
| `RecordedStreams.StaleOffset` | modules/processing/network.py:676-764 | a concrete capture of an unreadable and a readable packet whose recorded offset streams none of the data |
| `RecordedStreams.Ipv6StreamsMix` | modules/processing/network.py:1200-1223 | a stream opened at a packet without IPv4 header runs through all such packets, whatever conversation they belong to, all marked as one direction |
| `CallRuns.MergeExpand` | modules/processing/behavior.py:167-183 | folding loses no call: expanding every delivered call into repeated + 1 copies gives the expanded log |
| `CallRuns.MergeNeighbours` | modules/processing/behavior.py:134-142 | no two neighbouring delivered calls compare equal |
| `CallRuns.FoldingUnique` | modules/processing/behavior.py:134-183 | these two facts determine the folded log |
| `CallRuns.PassLosslessIff` | modules/processing/behavior.py:144-183 | an unlimited pass over a log that the parser refuses in places delivers every call iff no call lies behind a refusal met where a call was due |
| `CallRuns.PassWithoutRefusals` | modules/processing/behavior.py:144-183 | without refusals a pass is the folded log |
| `CallRuns.SegmentsCalls` | modules/processing/behavior.py:144-157 | cutting the log at its refusals loses no call and keeps their order |
| `LogTables.InForceIff` | lib/cuckoo/common/netlog.py:219-236 | the table holds under an index the last explanation before the message, or what it held before the log if there is none |
| `LogTables.EventIff` | lib/cuckoo/common/netlog.py:261-308 | message i is read as a call exactly if it is one, its index has an explanation in force with as many names as it has arguments, and that is none of the three special names; the call has the status, return, context and count of the message, the name in force, and argument k under name k. Only a broken message is refused |
| `LogTables.NamedIff` | modules/processing/behavior.py:97-98 | a message names the process exactly if its explanation in force is that of __process__ and the last of its arguments named ProcessIdentifier is not zero |
| `LogTables.FirstKnownIff` | modules/processing/behavior.py:82-100 | opening stops at the first message that names the process, with the table learnt before it, and finds none exactly if no message does |
| `LogTables.EventsAgreeIff` | lib/cuckoo/common/netlog.py:261-272 | two tables read a log alike iff they decode alike every call that comes before any explanation of its index |
| `LogTables.LearnAllTwice` | lib/cuckoo/common/netlog.py:219-236 | reading the whole log a second time teaches nothing |
| `LogTables.EventsStableIff` | modules/processing/behavior.py:126-132 | every reading of the whole log gives what the first gave iff each call before any explanation of its index decodes the same under the table the log was opened with and the one the whole log leaves |
| `LogTables.AnyReadingIff` | modules/processing/behavior.py:126-132 | readings that may each stop anywhere never change what the log is read as iff no message of it would change what such a call means |
| `LogTables.NoLateMeaningReads` | modules/processing/behavior.py:126-132 | where no message changes a meaning, every table that the log can leave reads it alike |
| `LogTables.ExplainedIsStable` | lib/cuckoo/common/netlog.py:261-272 | a log that explains its calls first is read alike under any table |
| `ProcessLog.ParseFirst` | modules/processing/behavior.py:97-98 | reads up to the first message that names the process by a non-zero id, past refused messages; None at the end of the log |
| `ProcessLog.Open` | modules/processing/behavior.py:67-100 | a log file without such a message raises EOFError; any other is ready for a full pass under the table learnt on the way |
| `ProcessLog.ParseProcessLog.constructor` | modules/processing/behavior.py:42-80 | a new log delivers one full pass next, cached or not; without a log file it delivers nothing |
| `ProcessLog.ParseProcessLog.Reset` | modules/processing/behavior.py:126-132 | reset puts every counter and the position back to the start |
| `ProcessLog.ParseProcessLog.WaitForLastcall` | modules/processing/behavior.py:144-157 | reads on to the next call, or to the refusal or end that stops it, and loses no call on the way |
| `ProcessLog.ParseProcessLog.FillCache` | modules/processing/behavior.py:70-80 | the cache holds exactly one uncached pass and an end mark |
| `ProcessLog.ParseProcessLog.FoldRun` | modules/processing/behavior.py:172-178 | takes the next folded call off what is still to come, looking one call ahead |
| `ProcessLog.ParseProcessLog.CachelessNext` | modules/processing/behavior.py:159-183 | delivers the next of the folded, limited and numbered calls; at the end it rewinds for the next pass |
| `ProcessLog.ParseProcessLog.Next` | modules/processing/behavior.py:185-195 | with or without cache, delivers the next call of the pass, then stops and restarts; the cached form without log file raises AttributeError |
| `ProcessLog.ParseProcessLog.Pass` | modules/processing/behavior.py:185-195 | a consumer's loop gets exactly the pass, which PassTells, PassTellsAll and PassLimit describe by the messages of the log, and the next one is ready; a whole pass leaves the table of the whole log |
| `ProcessLog.PassTells` | modules/processing/behavior.py:134-183 | the k-th delivered call has id k, and signature and context of the call that one message of the log makes, with at least its count |
| `ProcessLog.PassTellsAll` | modules/processing/behavior.py:144-183 | without broken messages and limit the pass, expanded, is every call the messages make, in order |
| `ProcessLog.PassLimit` | modules/processing/behavior.py:165-170 | a limit cuts the unlimited pass off after so many calls |
| `ProcessLog.ManyPasses` | modules/processing/behavior.py:126-195 | any number of passes over a log in which no message changes a meaning each deliver the folded calls up to the limit with ids from 0, refusals or not, cached or not |
| `ProcessLog.WholePasses` | modules/processing/behavior.py:126-183 | without limit and refusals, the first pass reads the log under the table it was opened with and every later one under the table the whole log leaves |
| `ProcessLog.ManyCachedPasses` | modules/processing/behavior.py:70-80 | with the cache all passes agree even over a log that explains its calls late |
| `ProcessLog.LateExplanation` | modules/processing/behavior.py:82-132 | a concrete log, opened and read twice: the first pass misses a call that the second delivers |
| `ProcessTree.AttachFinds` | modules/processing/behavior.py:1003-1023 | a node is placed iff its parent id is somewhere in the forest |
| `ProcessTree.AttachMembers` | modules/processing/behavior.py:1003-1023 | placing a node adds it once, loses nobody and changes no root |
| `ProcessTree.AttachKids` | modules/processing/behavior.py:1003-1023 | placing a node makes it the last child of its parent and changes no other child list |
| `ProcessTree.ProcessTree.constructor` | modules/processing/behavior.py:999-1001 | no processes, no tree |
| `ProcessTree.ProcessTree.EventApicall` | modules/processing/behavior.py:1025-1040 | only the first mention of a process id lists a process, so ids stay distinct |
| `ProcessTree.ProcessTree.AddNode` | modules/processing/behavior.py:1003-1023 | the depth-first search places the node under the first process with its parent id, or leaves the forest alone |
| `ProcessTree.ProcessTree.FindParent` | modules/processing/behavior.py:1047-1056 | whether another listed process is the parent |
| `ProcessTree.ProcessTree.FindRoots` | modules/processing/behavior.py:1046-1063 | orphans become roots in list order, the others are set aside in list order |
| `ProcessTree.ProcessTree.Run` | modules/processing/behavior.py:1042-1070 | the finished forest is the one specified for the list |
| `ProcessTree.EachOnce` | modules/processing/behavior.py:1042-1070 | every listed process is in the forest exactly once |
| `ProcessTree.EdgesAreParentage` | modules/processing/behavior.py:1042-1070 | every edge joins a process to its parent id, and to a parent that is listed |
| `ProcessTree.PlacedIff` | modules/processing/behavior.py:1066-1068 | a child finds its parent in the forest iff the parent is an orphan or stands before it in the list |
| `ProcessTree.RootsAreOrphansIff` | modules/processing/behavior.py:1042-1070 | the roots are exactly the processes without listed parent, in list order, iff every process that is itself a child stands before its children |
| `ProcessTree.InOrderIsEnough` | modules/processing/behavior.py:1042-1070 | a list with parents before children meets that condition |
| `ProcessTree.StrayGrandchild` | modules/processing/behavior.py:1066-1068 | a list with a grandchild before its parent, whose forest shows the grandchild as a root |
| `DistMaster.StepInv` | utils/dist.py:244-369 | every step of every thread keeps: one row per main task, node and task id set together, finished as retrieved, deleted only when notified, notified only when finished, one row per worker task, and the queues know only pairs that a worker gave out |
| `DistSafety.RunInv` | utils/dist.py:507-935 | the same after any interleaving of the steps |
| `DistSafety.InitInv` | utils/dist.py:373-379 | the empty tables meet it |
| `DistMaster.StepEarned` | utils/dist.py:598-673 | a submitted row is finished, or about to be, only after its report was copied or its worker listed it as failed (StepFetched is the other half) |
| `DistMaster.StepFetched` | utils/dist.py:625-673 | every step keeps: a copied row is finished and retrieved |
| `DistSafety.RunCopied` | utils/dist.py:507-673 | after any run from the start a copied row is finished and retrieved, and a finished submitted row was copied or listed as failed |
| `DistMaster.CopiedIsSettled` | utils/dist.py:476-596 | a copied row was notified or can be, and neither the fetcher nor a copying thread finds its pair open again |
| `DistMaster.RowsEffects` | utils/dist.py:843-998 | rows come only by an insertion, fresh, and go only by a purge or a drop |
| `DistMaster.FinishedEffects` | utils/dist.py:507-673 | a row becomes finished and retrieved exactly by a missing sample, a copy that ends well, or the failed cleaner's commit of its mark; never the other way |
| `DistMaster.NotifiedEffects` | utils/dist.py:476-535 | a row becomes notified exactly by its callback or that commit, and deleted exactly by the cron cleaner's commit |
| `DistMaster.PairEffects` | utils/dist.py:244-369 | main task never changes, node and task id exactly by the commit of the row's own submission, to the worker's reply |
| `DistMaster.CountEffects` | utils/dist.py:598-673 | a fetch adds its row to the copies under way and its pair to current_queue; the end of a copy takes the row out, and the pair unless the copy failed without an exception |
| `DistMaster.HandEffects` | utils/dist.py:507-673 | what steps do to the rows marked by the failed cleaner and to those copied |
| `DistMaster.QueueEffects` | utils/dist.py:507-813 | what steps put into the fetch queue and the cleaner queue, and take out |
| `DistMaster.WorkerEffects` | utils/dist.py:221-242 | what steps do to the tasks of the workers; only the cron cleaner and the remover remove, and only what was really deleted |
| `DistSafety.NothingLost` | utils/dist.py:507-673 | in a safe state the result of every pair in the cleaner queue, or already removed from its worker, was copied or reported failed |
| `DistSafety.DoomedNow` | utils/dist.py:507-622 | a pair with a row gets into the cleaner queue, or off its worker, only when its row is finished or a worker has just listed it as failed |
| `DistSafety.StepSafeIff` | utils/dist.py:244-369 | from a safe state exactly one kind of step leads to an unsafe one: the commit of a submission whose pair was put in the cleaner queue before the commit |
| `DistSafety.RunSafeIff` | utils/dist.py:244-673 | a run is safe at all times iff it has no such late commit |
| `DistSafety.AtOnceSafe` | utils/dist.py:244-673 | if nothing happens between a worker's reply and the commit, every run from the start is safe throughout: no result is lost |
| `DistFetch.RaceLoses` | utils/dist.py:559-569 | a run in which the fetcher meets the pair before the commit: the finished report is removed from the worker uncopied |
| `DistFetch.CopyableIff` | utils/dist.py:559-673 | from any state the invariant allows, a submitted row not yet copied is copied in some continuation iff its pair is on the worker and a thread has the row in hand, or the row is open and its pair is queued or not in current_queue |
| `DistFetch.NeverCopied` | utils/dist.py:559-673 | a row that is not, stays so and uncopied in every continuation |
| `DistFetch.FailedCopyAbandonsIff` | utils/dist.py:647-649 | a failed copy of an uncopied row leaves it so iff its pair is off the worker, or no other thread has it and it is finished or not queued again |
| `DistSettle.SettleIff` | utils/dist.py:476-673 | a submitted row can still come to be notified, deleted and off its worker iff it is finished, marked as failed, or still on the worker; a task removed unread stays open for good |
| `DistSettle.UnsubmittedCan` | utils/dist.py:244-369 | a row not yet submitted can be submitted under any unused id, finished for want of its sample, dropped or purged |
| `VmTags.LoadVmTags` | utils/dist.py:1007-1018 | the tags of a node are exactly the joined non-empty combinations of one machine's tags |
| `VmTags.MachineTags` | utils/dist.py:1014-1017 | the combinations of one machine, of all sizes from one up |
| `VmTags.JoinAll` | utils/dist.py:1016-1017 | the combinations of one size, joined by commas |
| `VmTags.LikeTag` | utils/dist.py:977-978 | the pattern for one tag matches a column that holds the tag, wildcard characters in it included |
| `VmTags.LikeCommas` | utils/dist.py:975-976 | the pattern of commas matches a column of that many tags |
| `VmTags.PercentIff` | utils/dist.py:975-978 | % in a pattern stands for any text |
| `VmTags.LikeByCharacter` | utils/dist.py:975-978 | without % a pattern stands for text of its length, _ for any character |
| `VmTags.ChooseCombination` | utils/dist.py:1014-1017 | any set of a machine's tags is among its combinations, in the machine's order |
| `VmTags.TerminatedEligible` | utils/dist.py:967-981 | a task with distinct comma-free tags, all on one machine, passes the node's filter in whatever order they come |
| `VmTags.TagsComplete` | utils/dist.py:895-981 | a task whose distinct tags all sit on one machine passes with the column as submitted, clean-up of x86 included, unless the clean-up tears a tag |
| `VmTags.TaskTagsAre` | utils/dist.py:894-903 | the column is empty without tags, each tag with its comma as long as not both an x86 and an x64 stand in them, and otherwise cut at every x86 before a comma, which leaves the tags but x86 exactly if no other tag ends in it |
| `VmTags.TakenIff` | utils/dist.py:894-981 | for tags without wildcards and no torn one: a node takes a task iff the task has no tags, or one machine has the one tag asked for, or asked-for tags are at least two and one machine has two tags that some of them end in |
| `VmTags.StrangerRefused` | utils/dist.py:967-981 | a node none of whose tags stands in a non-empty column does not take the task, wildcards or not |
| `VmTags.EligibleIff` | utils/dist.py:967-1018 | of all combinations only those of one and of two tags matter: a node's filter lets a column through iff one machine has a tag that is the whole column, or two tags that are both in a column of at least two |
| `VmTags.TornYetEligible` | utils/dist.py:901-981 | a concrete torn column that a machine still takes |
| `VmTags.CleanUpExactIff` | utils/dist.py:901-903 | taking out "x86," removes the tag x86 and nothing else iff no other tag ends in x86 |
| `VmTags.TornTag` | utils/dist.py:901-903 | a task asking for winx86 and x64 is not given to a machine that has exactly these two |
| `CallChunks.CutShape` | modules/reporting/report_doc.py:95-130 | the chunks of a process join to its calls, all but the last have exactly 100, none is empty, and there are ceil(n / 100) |
| `CallChunks.StoredIds` | modules/reporting/report_doc.py:88-132 | the chunk ids of a stored report are fresh, consecutive and used once each |
| `CallChunks.StoreRoundTrip` | utils/process.py:274-283 | what insert_calls stores reads back as the processes with all their calls unchanged |
| `CallStore.MongoStore.constructor` | modules/reporting/mongodb.py:97-152 | an empty store stands for no report |
| `CallStore.MongoStore.InsertChunks` | modules/reporting/report_doc.py:95-130 | one process's calls become chunk documents under fresh ids, in order |
| `CallStore.MongoStore.InsertCalls` | modules/reporting/report_doc.py:88-132 | all processes in turn, each with the ids of its own chunks |
| `CallStore.MongoStore.DeleteData` | dev_utils/mongodb.py:138-155 | the reports under the given ids go with all their chunks; all other reports and all orphans stay |
| `CallStore.MongoStore.RemoveAll` | dev_utils/mongodb.py:146-150 | the chunks referred to by the documents of a set, and no others, are deleted |
| `CallStore.MongoStore.RemoveChunks` | dev_utils/mongodb.py:147-149 | the chunks of one document are deleted |
| `CallStore.MongoStore.Run` | modules/reporting/mongodb.py:119-152 | storing replaces the report under its id and leaves the others; the chunks become orphans exactly when the document is refused or loses its process list |
| `CallStore.MongoStore.FindSorted` | utils/process.py:281 | the chunks wanted, in ascending order of id |
| `CallStore.MongoStore.FindNewest` | utils/process.py:275 | a document under the id iff the store has one |
| `CallStore.MongoStore.LoadCalls` | utils/process.py:277-282 | the calls of one stored process, its chunks joined in order |
| `CallStore.MongoStore.LoadReport` | utils/process.py:271-283 | exactly the report last stored under the id, or nothing |
| `CallStore.SortedIsInOrder` | utils/process.py:281-282 | sorting by id puts a process's chunks back in order |
| `CallStore.ArriveKeeps` | modules/reporting/report_doc.py:88-132 | new chunks belong to no document |
| `CallStore.LeaveKeeps` | dev_utils/mongodb.py:138-155 | when documents leave with their chunks, every other report still reads the same and no chunk is orphaned |
| `CallStore.DocKeeps` | modules/reporting/mongodb.py:150-152 | a document arriving for chunks that belonged to none adds one report and changes no other |
| `CallStore.NoOrphans` | modules/reporting/mongodb.py:119-152 | without orphans the chunks in the collection are the disjoint union of those referenced by documents |
| `CallStore.History` | modules/reporting/mongodb.py:119-152 | over any history of successful stores and deletes the store stands for a plain map from id to report, and leaves no orphan |
| `LargeDocs.Largest` | modules/reporting/mongodb.py:44-65 | the first of the keys with the most string content |
| `LargeDocs.SizeIsText` | modules/reporting/mongodb.py:44-65 | the size of a value is the length of all text in it, at any depth; keys, numbers and null count nothing |
| `LargeDocs.PruneItem` | modules/reporting/mongodb.py:172-175 | one list element loses its largest key if that exceeds the filter, or makes the round raise |
| `LargeDocs.PruneItems` | modules/reporting/mongodb.py:170-175 | a list is gone through up to the first element that raises; a negative filter takes a key from every element |
| `LargeDocs.Prune` | modules/reporting/mongodb.py:169-180 | one round changes second-level entries under one key only: the largest of its dictionary, or of every dictionary of its list, goes if it exceeds the filter; where it raises, what was done by then is stated |
| `LargeDocs.FixLargeDocs` | modules/reporting/mongodb.py:163-196 | every refused report is pruned under its largest key with a filter of 16 MB less one for each refusal before; the loop ends, within 17 refusals plus the number of second-level keys, whatever the database answers, unless the first key holds an empty list and the database goes on refusing documents without strings; only second-level entries are lost |
| `LargeDocs.StuckRounds` | modules/reporting/mongodb.py:163-196 | in that case any number of rounds changes nothing |
| `Throttle.TrimRecent` | web/apiv2/throttling.py:62-65 | dropping from the tail keeps exactly the accepted requests inside the window |
| `Throttle.RequestRemembers` | web/apiv2/throttling.py:59-68 | one request, granted or not, leaves in the cache everything that can still matter |
| `Throttle.RunRemembers` | web/apiv2/throttling.py:59-68 | so does every run on a clock that does not go back |
| `Throttle.AcceptedIff` | web/apiv2/throttling.py:64-68 | a request is let through iff fewer than the plan's number were let through in (now - duration, now] |
| `Throttle.WindowBound` | web/apiv2/throttling.py:59-68 | over every run no window of length duration holds more accepted requests than the plan's number |
| `Throttle.UnitWindow` | web/apiv2/throttling.py:11-15 | a plan in "m" counts the accepted requests of the last second, in "h" those of the last sixty seconds, in "d" those of the last day; other units are unknown |
| `Throttle.SubscriptionRateThrottle.constructor` | web/apiv2/throttling.py:22-23 | a new throttle has the configured rate and an empty cache |
| `Throttle.SubscriptionRateThrottle.AllowRequest` | web/apiv2/throttling.py:25-68 | staff, users without limit and requests without key always pass; others are judged on their own history under their plan, and only an accepted request changes the cache |
| `Throttle.Serve` | web/apiv2/throttling.py:25-68 | the requests of one user, served one after the other, are accepted as the run specifies, and no other user's history changes |
| `Rooter.EnableDisable` | utils/rooter.py:276-328 | enabling adds a route's rules to every chain as a multiset, disabling takes them away as far as they are there |
| `Rooter.RuleBalance` | utils/rooter.py:204-417 | after any interleaving in which disables match open enables, every chain holds its initial rules plus those of the open routes, counted with multiplicity |
| `Rooter.OthersKeepOrder` | utils/rooter.py:204-417 | rules that no route of the run names keep their order in every chain, matched or not |
| `Rooter.DisableUndoes` | utils/rooter.py:276-417 | where no rule of a route was there before, disabling restores the chain rule for rule, in order |
| `Rooter.InetsimTables` | utils/rooter.py:204-301 | enabling the inetsim route leaves the catch-all rule before and the redirections and name service rules behind what was there, in order, and appends the three dropping rules |
| `Rooter.DropTables` | utils/rooter.py:396-405 | enabling the drop route leaves the rule for the result server before and all others behind what was there, in order |
| `Rooter.WordsAre` | utils/rooter.py:249 | a port list is cut at white space, without empty words |
| `Rooter.EntryIff` | utils/rooter.py:250-272 | an entry counts iff it is two numbers with one colon between, and redirects the first port to the second at the other host |
| `Rooter.NumberIsDigit` | utils/rooter.py:254 | every number in its usual form counts as one |
| `Rooter.Handlers.constructor` | utils/rooter.py:59-63 | starts from given tables |
| `Rooter.Handlers.Run` | utils/rooter.py:59-63 | one command appends, inserts in front, or deletes the first match |
| `Rooter.Handlers.RemoveFirst` | utils/rooter.py:59-63 | deletion takes the first match only, and does nothing without one |
| `Rooter.Handlers.InetsimRedirectPort` | utils/rooter.py:241-273 | one redirect rule per well-formed entry, others skipped |
| `Rooter.Handlers.DnsForward` | utils/rooter.py:204-238 | the TCP and the UDP rule |
| `Rooter.Handlers.InetsimEnable` | utils/rooter.py:276-301 | runs the route's script |
| `Rooter.Handlers.InetsimDisable` | utils/rooter.py:304-329 | deletes, command by command, what the enabling script added |
| `Rooter.Handlers.DropEnable` | utils/rooter.py:396-405 | runs the route's script |
| `Rooter.Handlers.DropDisable` | utils/rooter.py:408-417 | deletes, command by command, what the enabling script added |
| `MaecObjects.StripFileName` | modules/reporting/maec5.py:346-349 | stripping the characters of the file name off a path strips the file name and nothing more |
| `MaecObjects.HttpsHost` | modules/reporting/maec5.py:424-428 | every https URL is filed under the host "https:", because the scheme taken off is misspelt |
| `MaecObjects.ProcessedStable` | modules/reporting/maec5.py:516-560 | ids are permanent: later growth of the table does not change what an earlier object was stored as |
| `MaecFacts.FileTells` | modules/reporting/maec5.py:303-363 | a file object has the hashes, size, type and scans of its file; name and directory as its path gives them; a path that is only a directory makes it one |
| `MaecFacts.DirectoryIs` | modules/reporting/maec5.py:365-372 | a directory object is the path without the separators at its end |
| `MaecFacts.ProcessTells` | modules/reporting/maec5.py:374-387 | a process object holds exactly what is known of the process |
| `MaecFacts.SameObjectIff` | modules/reporting/maec5.py:374-387 | two processes become one object iff they agree in pid field, name, command line and first-seen time |
| `MaecFacts.TreeTells` | modules/reporting/maec5.py:619-666 | an object of the tree refers to the object of its parent iff that is listed, and to those of its children, in list order, iff it has any |
| `MaecFacts.UrlAddressed` | modules/reporting/maec5.py:406-446 | an http URL is filed under its host and asks for what follows the slash, or raises without a slash; an ftp URL is filed under its host |
| `MaecFacts.BareAddressed` | modules/reporting/maec5.py:406-446 | anything else is filed under itself as what it is recognised to be |
| `MaecFacts.HttpTells` | modules/reporting/maec5.py:389-404 | the traffic object gains the GET request to the host and the protocol, and keeps the rest |
| `MaecFacts.ProtocolsNamed` | modules/reporting/maec5.py:516-557 | protocol 1 is ftp, 3 is http, every other stays |
| `MaecFacts.SetTells` | modules/reporting/maec5.py:460-488 | setting a property sets it and nothing else, and fails exactly if a list property meets something other than a list beginning with a dictionary |
| `MaecFacts.MapTells` | modules/reporting/maec5.py:460-488 | a mapped argument stands in the object or in its extension, all else stays |
| `MaecFacts.NothingMapped` | modules/reporting/maec5.py:490-507 | missing and empty arguments set nothing |
| `MaecFacts.KeyWithoutName` | modules/reporting/maec5.py:535-539 | a registry key ends before the name of its value |
| `MaecFacts.SoftwareTells` | modules/reporting/maec5.py:228-275 | what the objects of the tool and of the machine say |
| `Strings.StrInjective` | modules/reporting/maec5.py:204-208 | different counters give different ids |
| `Maec.MaecReport.CreateObjId` | modules/reporting/maec5.py:204-208 | an id that was never issued before and stands for no stored object |
| `Maec.MaecReport.DeduplicateObj` | modules/reporting/maec5.py:448-458 | equal objects get the same id, a new one a fresh id, different objects never the same; an object that cannot be sorted raises after its id is spent |
| `Maec.MaecReport.CreateDirectoryFromFilePath` | modules/reporting/maec5.py:343-363 | the directory is stored once and referred to by id; a path that is only a directory turns the object into one |
| `Maec.MaecReport.CreateFileObj` | modules/reporting/maec5.py:303-341 | the file object of the data, and an id nobody else has |
| `Maec.MaecReport.CreateMalwareInstance` | modules/reporting/maec5.py:210-226 | the instance refers to its file object, stored under an id of its own outside deduplication |
| `Maec.MaecReport.Setup` | modules/reporting/maec5.py:228-275 | the primary instance with exactly its file object and scan results, the tool and the machine, all stored; none for other targets |
| `Maec.MaecReport.AddDroppedFiles` | modules/reporting/maec5.py:277-301 | every dropped file is stored as its file object under an instance of its own, related to the primary one; it raises iff there is a file and no primary instance |
| `Maec.MaecReport.CreateNetworkObj` | modules/reporting/maec5.py:406-446 | the network object of an address is stored, and the traffic object gains its HTTP data and protocols; None where the code raises |
| `Maec.MaecReport.SetReferences` | modules/reporting/maec5.py:516-557 | every raw reference a mapping left is replaced by the id of a stored object |
| `Maec.MaecReport.PostProcessObject` | modules/reporting/maec5.py:516-560 | the processed object is stored and its id returned, or it raises |
| `Maec.MaecReport.BuildObject` | modules/reporting/maec5.py:490-507 | the object of a call's arguments; its only raw references are those post-processing replaces |
| `Maec.MaecReport.MapObjects` | modules/reporting/maec5.py:490-514 | no references if no property is set, an empty list if storing raises, otherwise the one id |
| `Maec.MaecReport.MapApiToAction` | modules/reporting/maec5.py:562-576 | one action whose two reference lists are what the mapping makes of the call |
| `Maec.MaecReport.MapApiCalls` | modules/reporting/maec5.py:578-592 | one action per mapped call in log order, and every process lists exactly the ids of its own actions |
| `Maec.MaecReport.CreateProcessObjects` | modules/reporting/maec5.py:636-656 | every pid gets the object of the first process that has it, and every listed parent its children in list order |
| `Maec.MaecReport.CreateProcessTreeNode` | modules/reporting/maec5.py:619-634 | the node names the process and its actions, and the object gains parent and children |
| `Maec.MaecReport.AddProcessTree` | modules/reporting/maec5.py:636-666 | one node per process in list order; if no two processes share an object, every object shows its own properties, parent and children |
| `Maec.UnsharedIff` | modules/reporting/maec5.py:374-387 | processes have objects of their own iff their pids and their properties are distinct: two of one name, command line and first-seen time become one object |
| `Maec.MaecReport.Run` | modules/reporting/maec5.py:171-191 | a report is written iff the target is a file; in it every reference in objects, instances, metadata, actions and nodes is the id of a stored object, every action a node names is in the package, and the instances of dropped files are referred to but absent |

## Left out

- Packet parsing: what dpkt makes of the bytes is a field of the packet, file positions are packet indices, time stamps are reals.
- Protocol dissectors, hosts, DNS, `Pcap2`, and the clean-up loops for passlisted hosts, which remove from the lists they walk.
- Two chunk readers of equal keys are told apart by the packet bytes, as in the code, but a reader error in the middle of a file is not modelled.
- `Merged`: no stability across chunks is claimed, as the counter that decides ties starts again in every chunk file.
- Aliasing in the process tree: trees are values, so the sharing of a process dictionary between the list and the tree is not captured; insertion in place is a new forest.
- Anomaly records in the process log, which lack the compared fields; the BSON format, missing fields and failing converters in a message; `begin_reporting`. A message gives at most one call.
- In the distributed master: HTTP traffic, the Flask resources, disk-space checks, nodes coming and going, the states of main tasks, the ZIP fetch path, and crashes of the master between steps.
- DistSafety.RunInv: the cron cleaner is taken over any set of notified rows that have a node; the code takes all of them and stops with a KeyError if one has none, which a missing sample file can cause.
- DistFetch.CopyableIff: says what can still be copied, not that it is: no claim is made that the threads get there.
- VmTags.TagsComplete: no torn tag is sufficient for the claim, not necessary (TornYetEligible); matching is case-sensitive here, and a database that ignores case only lets more pass.
- VmTags.TakenIff: for tags without % and _, which LIKE reads as wildcards, and without a torn one; EligibleIff covers every column and all comma-free tags.
- `loop_saver`, Elasticsearch, retention, indexes and schema versions; document ids are consecutive numbers where the database has increasing object ids.
- LargeDocs.FixLargeDocs: the first refusal for characters in keys, which goes to `loop_saver`, is not part of the model.
- Throttle: the framework's base class is not part of this model; an accepted request is put at the front of the history and saved. Cache expiry and concurrent requests are left out.
- Rooter: `socks5_enable` puts a rule number where the chain belongs and `forward_enable` deletes rules it never restores, so neither is balanced; what iptables does with packets is left out.
- MAEC: labels, capabilities, signatures and techniques carry no references and are left out; hashes, scans and other nested values are opaque; recognising an address is a parameter; UUIDs are consecutive numbers. The mapping file is assumed to use references only as it does: binary_ref from filepath, dst_ref and src_ref for traffic.
- Maec.MaecReport.MapObjects: arguments are texts under names, the form after the list of name and value pairs has been read.
