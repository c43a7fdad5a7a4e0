# Umber DDS: the reliable protocol, its cache and its codecs

A model in Dafny of the parts of Umber DDS on which delivery depends, with proofs of what they promise.

**The protocol.** A reliable, user-defined RTPS StatefulWriter and its readers (sections 8.4.2.2.4 and 8.4.12.2.4 of
RTPS 2.3). `WriterModel` says what each handler of the writer does, as functions on values; `WriterProxies` does the
same for a reader's record of a writer. The application's DataWriter runs on another thread and shares the
HistoryCache through a lock, so a handler may find new changes there at every lock acquisition: `Yield` is one
acquisition, and `script` holds the writes that come in before each. The classes (`StatefulWriters.Writer`,
`StatefulReaders.Reader`, `ReaderProxyClass.ReaderProxy`, `WriterProxyClass.WriterProxy`, `DataWriters.DataWriter`)
update their fields step by step as the source does, and each handler is proved to end in the state the function gives.
`WriterInvariants`, `Delivery`, `Convergence` and `LossFree` prove what every run of these functions keeps:

- no change that is relevant to a matched reader leaves the writer's cache before that reader has received it, over all
  runs with lossy links, repeated deliveries, and ACKNACKs lost, repeated or reordered at will
  (`Delivery.NothingForgottenUnreceived`);
- repair converges, for any number of readers and however the arrival of messages and ACKNACKs is interleaved, in two
  rounds without loss, if every answer's bitmap can span what its reader misses and all that is owed can arrive; with one
  reader that condition is exact (`LossFree.AllSettle`, `LossFree.OneSettles`; such rounds can be completed,
  `RoundsEnd.RoundsCanEnd`);
- the same with one reader when only the answer to the periodic heartbeat comes back (`Convergence.Converges`); a gap
  too wide for the bitmap is never repaired (`WideGaps.WideGapStays`, for gaps of every width);
- a payload that cannot arrive, because it is nothing but its header or too long for a datagram, keeps itself and every
  later change in the cache for as long as its reader stays matched (`Delivery.UndeliverableBlocks`);
- the cache and the proxies agree in every reachable state, so the `unreachable!` for a change missing from the cache is
  never reached (`WriterInvariants.AgreementInEveryRun`, `WriterInvariants.SendUnsentEffect`).

What a single handler does is also told apart from these functions, by the fields before and after it: `WriterLaws`
says which changes the writer forgets, what it sends, to whom and to which of a reader's locators, and when it blocks
(`WriterLaws.NeverBlocks`); `HandOver` says which sequences of arrivals make a reader's changes readable, and what each
of them leaves on record.

The links of `Delivery` keep the order of messages, and each reader has a locator of its own. Both are needed:
`WriterProxies.LateHeartbeatSkips` and `SharedLocators.RelevantChangeLost` show what goes wrong without them.
`MessageCover.ReachesJustTheTargets` says exactly when a submessage reaches only those it is for. `ReaderSteps.Hear`
ties the readers of these runs to the class, and `Messages.DeliverableExactly` the DATA that arrives to the parser.

**The cache.** `HistoryCaches.HistoryCache` is one map of changes with four indices beside it; `DataReaders` takes
from it and unpacks the samples.

**Sending.** `MessageCover` is the choice of messages that serves several readers with as few as possible.

**The codecs.** `Cdr` is the code that the derive macros emit for any type they accept, `CdrStreams` the same as a
writer and a reader with a moving offset; `Alignments` is a condition on a type alone for all its values to be aligned;
`SequenceNumberSets` is the bitmap of section 9.4.2.6 of RTPS 2.3; `Messages` the message builder, writer and parser;
`Spdp` the parameter list of participant discovery. `CdrOctets` and `WireFormats` spell out what all of these put on the
wire, octet by octet in both byte orders, without the functions that write it, and what the readers make of octets that
nobody wrote.

Where the code does not do what its documentation or the standard says, the model follows the code:

- the comment in `send_heart_beat` says acknowledged changes should go before the check for unacknowledged ones; the
  code checks first, which is why a TransientLocal writer can keep one change too many when the answers to heartbeats
  among the repairs are lost (`Leftovers.LeftoverStays` gives the run; without loss it does not happen, `LossFree.AllSettle`);
- a SequenceNumberSet of 256 numbers is valid by section 9.4.2.6 of RTPS 2.3, but the receiver drops it
  (`SequenceNumberSets.ValidWhenNarrow`), and so a reader that misses a stretch of 256 or more is never served
  (`WideGaps.WideGapStays`);
- a sample of a struct without fields can be written, but is refused as too small by the parser, and so blocks a reliable
  writer (`DataReaders.SampleArrives`, `Delivery.UndeliverableBlocks`);
- CDR wants every primitive at a multiple of its size, but a nested struct restarts the count and the outer count passes
  over it (`Cdr.StructAligned`, `Cdr.NestedMisaligns`, `Alignments.AlignedByType`);
- a big-endian participant announcement loses its domain id (`Spdp.ParticipantRoundTrip`).

`dafny verify dfyconfig.toml` checks the whole project.

## Model

| member | source | states |
|---|---|---|
| Delivery.NothingForgottenUnreceived | src/rtps/writer.rs:738-771 | in every run from the start, a change relevant to a still matched reader and no longer cached was accepted by that reader, with the payload that was written |
| Delivery.UndeliverableBlocks | src/message/submessage/element.rs:489-511 | in every run from the start, if a payload owed to a still matched reader cannot arrive, neither it nor any later change the writer has processed is acknowledged by all or leaves the cache |
| Delivery.RelevantIsWhatTheProxySays | src/structure/proxy.rs:57-76 | in every run, a cached change the proxies know is owed to a reader exactly when the entry in its proxy is marked relevant |
| Delivery.InvApply | src/rtps/writer.rs:247-702 | every step, of the writer, the application, a link or a reader, keeps the invariant that ties cache, proxies, messages under way, pending ACKNACKs and readers together |
| Delivery.HeartbeatSendOk | src/rtps/writer.rs:475-526 | a HEARTBEAT covers every change its receiver is owed and has not got |
| Delivery.RepairSendOk | src/rtps/writer.rs:631-677 | every answer to a request is sound: DATA carries what was written, a HEARTBEAT for a forgotten change skips nothing that is owed |
| Delivery.HeartbeatAnswerOk | src/rtps/reader.rs:633-743 | the ACKNACK a reader answers with claims no relevant change that has not arrived, and asks for nothing the writer has not processed |
| Delivery.SnapshotOwes | src/structure/proxy.rs:57-76 | a new proxy owes its reader nothing (Volatile) or exactly the newest change (TransientLocal), which is still cached |
| Convergence.Converges | src/rtps/writer.rs:458-702 | from any reachable state with one reader, after two or more rounds in which the heartbeat, its answer and the repairs arrive, everything cached is acknowledged and the timer sends nothing, if and only if that was so at the start, or the answer's bitmap can span what is missing and every cached change owed has a payload that can arrive; if the answer fits, all that is owed and can arrive does, otherwise nothing; what the cache then holds, with the exact exception |
| LossFree.AllSettle | src/rtps/writer.rs:458-702 | from any reachable state, for any number of readers, after two or more rounds in which every message and every ACKNACK arrives, in any interleaving: if every reader's answer fits and all that is owed can arrive, everything cached is acknowledged by all, the timer sends nothing, and the cache holds nothing (Volatile) or just the newest change (TransientLocal); if something owed cannot arrive, it is never all acknowledged |
| LossFree.OneSettles | src/message/message_receiver.rs:329-333 | with one reader everything is acknowledged if and only if it was at the start, or the answer fits and all that is owed can arrive; if the answer does not fit, nothing arrives in any order |
| LossFree.HappenInRound | src/rtps/writer.rs:529-702 | every arrival keeps, for each reader: of what is cached it misses only what is on its link or in a request under way, each answer fits and claims the whole range unless it asks for its base, and a change that all have acknowledged stays cached only while somebody is to be heard about the next one |
| RoundsEnd.RoundsCanEnd | src/rtps/writer.rs:529-702 | under the same condition any number of such rounds can be brought to an end: some order of arrivals leaves nothing under way |
| Convergence.FinishesExactly | src/rtps/writer.rs:529-574 | one round acknowledges everything left exactly when its ACKNACK covers, and does not ask for, each change still owed |
| Convergence.OneRoundLeaves | src/rtps/writer.rs:458-468 | after a single round a TransientLocal writer holds just the newest change, if and only if the base of the answer is past it or the change below the base is gone already |
| Convergence.NarrowFits | src/message/submessage/element.rs:140-155 | if all that is unacknowledged lies within 255 numbers of the newest change, the answer fits whatever the reader misses |
| Leftovers.LeftoverStays | src/rtps/writer.rs:458-468 | a run from the start, of two readers, 23 events and reordered ACKNACKs, that ends calm with one reader, something to repair, an answer that fits and payloads that can arrive; any number of rounds in which the answers to heartbeats among the repairs are lost then acknowledges everything and yet leaves a TransientLocal writer with more than the newest change |
| WideGaps.GapOfAnyWidth | src/message/submessage/element.rs:140-155 | for every batch of changes there is a run after which the one reader misses all of it; its answer fits, and the writer's own bound holds, if and only if the batch is shorter than 256 |
| WideGaps.WideGapStays | src/message/message_receiver.rs:329-333 | from there any number of rounds acknowledges everything if and only if the batch is shorter than 256 and all its payloads can arrive; of a longer batch nothing ever arrives, of a shorter one all that can |
| Convergence.RepairAnswers | src/rtps/writer.rs:576-701 | every requested number is answered by DATA, GAP or a HEARTBEAT that starts just above it, and nothing else is sent |
| Convergence.RepairsArrive | src/rtps/reader.rs:549-699 | delivering the repairs makes no number missing, and each one settles the number it is for |
| Convergence.NoneRequestedRun | src/rtps/writer.rs:584-624 | in every run no request stays unanswered between handlers |
| WriterLaws.WriteCommandExactly | src/rtps/writer.rs:247-416 | in every state that agrees, a write command that finds changes enters them in every proxy (status by push mode, relevance by history, durability and how many are newer), forgets what nobody awaits up to the oldest of them, and sends everything unsent, DATA first, each to exactly the readers due it, once, at the address below |
| WriterLaws.WriteCommandKeeps | src/rtps/writer.rs:258-298 | after it a change cached before is cached if and only if it lies above the bound the oldest of the news sets for the durability, or some matched reader is still owed it |
| WriterLaws.UnsentGoesOut | src/rtps/writer.rs:314-416 | every unsent entry turns Underway and goes out as DATA or GAP, in ascending order, to exactly the readers it is due |
| WriterLaws.TargetsExactly | src/rtps/writer.rs:773-795 | DATA, GAP and repairs name exactly the readers due, in GUID order, each with its own unicast locators, or its default unicast ones, or failing both its multicast and then default multicast ones |
| WriterLaws.TakesWhatFits | src/rtps/cache.rs:260-276 | however many changes are written, a cache with limit m takes them until it holds m - 1, and without a limit takes all |
| WriterLaws.WritesMeanwhile | src/dds/datawriter.rs:115-166 | what the application writes while a handler waits for the lock is taken as far as it fits, and touches nothing but the cache |
| WriterLaws.NeverBlocks | src/rtps/cache.rs:260-276 | a writer without readers whose commands follow each write takes all that is written if and only if max_samples is negative, or at least 2 (Volatile) or 3 (TransientLocal) |
| WriterLaws.HeartbeatExactly | src/rtps/writer.rs:458-527 | when nobody awaits anything a periodic heartbeat changes and sends nothing; otherwise, and always for liveliness, the settled changes that nobody awaits go, save the newest of a TransientLocal writer, and what is left, if anything, is announced as one range to every reader, multicast locators first |
| WriterLaws.RepairExactly | src/rtps/writer.rs:576-702 | exactly what one reader has requested is answered, to that reader: DATA, a HEARTBEAT from the next number for what is gone, then GAPs; its requests turn Underway |
| WriterLaws.AckNackExactly | src/rtps/writer.rs:529-574 | for every ACKNACK: what the proxy says after it, whether it is answered now, later or not, and what is forgotten then |
| WriterLaws.ForgetsExactly | src/rtps/writer.rs:738-771 | of the changes at or below the bound, exactly those awaited by nobody leave the cache, if the proxies know them, and every proxy |
| WriterLaws.AddReaderExactly | src/rtps/writer.rs:881-951 | a known reader takes its new locators and durability and keeps its state; an incompatible one changes nothing; a new one gets an entry for all that is cached, relevant only if TransientLocal and newest; nothing else changes |
| WriterLaws.RemoveReadersExactly | src/rtps/writer.rs:1018-1029 | exactly the readers whose GUID has that prefix go, the others stay as they are |
| WriterLaws.AnnouncedAgain | src/rtps/writer.rs:945-950 | whatever is sent to a reader announced again, when the next change is written, goes to its new address |
| WriterInvariants.AgreementInEveryRun | src/rtps/writer.rs:247-771 | whatever ACKNACKs arrive and whatever is written in between, every settled change has an entry in every proxy, every Unsent entry has its change, numbers stay in order and no panic is reached |
| WriterInvariants.AgreementFromStart | src/rtps/writer.rs:86-145 | the same from a new writer on |
| WriterInvariants.SendUnsentEffect | src/rtps/writer.rs:314-416 | draining the Unsent entries sends exactly the planned DATA and GAPs, whatever is written meanwhile; the unreachable! at line 380 is not reached |
| Openings.FirstWrites | src/rtps/writer.rs:247-416 | a batch of any length, written before anything else, goes to every matched reader as one DATA each, in order, and is left Underway and relevant in every proxy |
| WriterInvariants.RemoveAckedExactly | src/rtps/writer.rs:738-771 | a change goes exactly when it was handed to the proxies, lies at or below the bound and is acknowledged by or irrelevant to every reader; an unprocessed change never goes |
| WriterInvariants.SendRepairsOut | src/rtps/writer.rs:631-677 | the answers to requests do not depend on what is written while they are sent |
| WriterInvariants.RetainedInEveryRun | src/rtps/writer.rs:746-771 | if no ACKNACK claims more than the writer had processed, a TransientLocal writer always caches the newest processed change |
| WriterInvariants.LateJoinerGetsNewest | src/structure/proxy.rs:57-76 | the proxy of a late-joining TransientLocal reader has exactly one relevant entry, the newest change, and an entry for every cached change |
| WriterProxies.AckSound | src/rtps/reader.rs:633-743 | with nothing on record above the range of the heartbeat, the base b of the answer has every number in [first, b) Received or Lost, nothing Missing below b or first, and the requested set is all that is Missing |
| WriterProxies.AckSoundExactly | src/structure/proxy.rs:394-450 | in general the answer is sound if and only if no number between the end of the range and the base lacks an entry |
| WriterProxies.LateHeartbeatSkips | src/structure/proxy.rs:394-405 | a concrete reordering after which the answer acknowledges a number that never came |
| StatefulWriters.DrainOne | src/structure/proxy.rs:138-158 | the loop over next_unsent_change or next_requested_change visits each such entry once, in ascending order, turns it Underway and changes nothing else |
| StatefulWriters.RankInList | src/rtps/writer.rs:273-294 | the loop counter of the reversed walk over new changes is the number of newer ones |
| StatefulWriters.Writer.constructor | src/rtps/writer.rs:86-145 | a new writer is the initial state of WriterModel |
| StatefulWriters.Writer.IsAckedByAll | src/rtps/writer.rs:820-827 | true exactly when every matched reader has acknowledged the change or finds it irrelevant |
| StatefulWriters.Writer.IsAckedAllChanges | src/rtps/writer.rs:449-456 | true exactly when that holds of every cached change |
| StatefulWriters.Writer.AckedUpTo | src/rtps/writer.rs:746-760 | the list of removable changes, in ascending order |
| StatefulWriters.Writer.RemoveAckedChanges | src/rtps/writer.rs:738-771 | ends in the state WriterModel.RemoveAcked gives, with writes let in between removals; WriterLaws.ForgetsExactly describes it by its fields |
| StatefulWriters.Writer.TakeNews | src/rtps/writer.rs:257-294 | empties the unprocessed set and enters each new change in every proxy with its status and relevance |
| StatefulWriters.Writer.DrainProxies | src/rtps/writer.rs:314-356 | drains every proxy and tabulates who gets DATA and who gets GAP for which number, and where; WriterLaws.UnsentGoesOut says who and where by the fields |
| StatefulWriters.Writer.SendData | src/rtps/writer.rs:357-387 | sends the planned DATA in ascending order, stopping at a change that has gone |
| StatefulWriters.Writer.HandleWriteDataCmd | src/rtps/writer.rs:247-416 | ends in the state WriterModel.ProcessWrites gives, which WriterLaws.WriteCommandExactly describes by its fields |
| StatefulWriters.Writer.Audience | src/rtps/writer.rs:486-497 | the readers a HEARTBEAT goes to, in GUID order |
| StatefulWriters.Writer.SendHeartBeat | src/rtps/writer.rs:458-527 | ends in the state WriterModel.SendHeartbeat gives, validity check and trimming included; WriterLaws.HeartbeatExactly describes it by its fields |
| StatefulWriters.Writer.SendRepairs | src/rtps/writer.rs:631-677 | answers each request with DATA, or with a HEARTBEAT from the next number if the change has gone |
| StatefulWriters.Writer.HandleNackResponseTimeout | src/rtps/writer.rs:576-702 | ends in the state WriterModel.Repair gives, which WriterLaws.RepairExactly describes by its fields |
| StatefulWriters.Writer.HandleAckNack | src/rtps/writer.rs:529-574 | ends in the state WriterModel.HandleAckNack gives, acknowledge, request, answer, forget, which WriterLaws.AckNackExactly describes by its fields |
| StatefulWriters.Writer.MatchedReaderAdd | src/rtps/writer.rs:881-951 | ends in the state WriterModel.AddReader gives, which WriterLaws.AddReaderExactly describes by its fields: an incompatible reader changes nothing, a known one gets its locators and durability updated, a new one the snapshot of the cache |
| StatefulWriters.Writer.DeleteReaderProxy | src/rtps/writer.rs:1018-1029 | exactly the readers with that prefix go |
| ReaderProxyClass.ReaderProxy.constructor | src/structure/proxy.rs:30-89 | an entry for each cached change, relevant only to a TransientLocal reader: the last one added, or all if the reader is builtin |
| ReaderProxyClass.ReaderProxy.AckedChangesSet | src/structure/proxy.rs:123-137 | exactly the entries up to the committed number become Acknowledged |
| ReaderProxyClass.ReaderProxy.RequestedChangesSet | src/structure/proxy.rs:168-176 | exactly the requested numbers become Requested; one without an entry gets a relevant one |
| ReaderProxyClass.ReaderProxy.NextChange | src/structure/proxy.rs:138-158 | the smallest number in the given status, or none if there is none |
| ReaderProxyClass.ReaderProxy.IsAcked | src/structure/proxy.rs:186-196 | absent or irrelevant counts as acknowledged |
| WriterProxyClass.WriterProxy.AvailableChangesMax | src/structure/proxy.rs:394-405 | the largest number Received or Lost, or 0 |
| WriterProxyClass.WriterProxy.LostChangesUpdate | src/structure/proxy.rs:409-420 | Unknown and Missing entries below the range become Lost, nothing else changes |
| WriterProxyClass.WriterProxy.MissingChanges | src/structure/proxy.rs:421-429 | the Missing numbers in ascending order |
| WriterProxyClass.WriterProxy.MissingChangesUpdate | src/structure/proxy.rs:430-450 | every number of the range without an entry becomes Missing, and so does an Unknown one |
| StatefulReaders.Reader.HandleHeartbeat | src/rtps/reader.rs:599-699 | entries of taken changes go, the range is recorded, what lies below is Lost; an ACKNACK goes out when the flags ask for it, and only then does the reader change what it waits for |
| StatefulReaders.Reader.HandleHbResponseTimeout | src/rtps/reader.rs:701-784 | one ACKNACK with base and requests as the record demands; with nothing missing all changes become readable and the next number is expected |
| StatefulReaders.Reader.HandleGap | src/rtps/reader.rs:549-597 | every number the GAP names counts as received and irrelevant and is waited for no longer; nothing becomes readable |
| StatefulReaders.Reader.AddChange | src/rtps/reader.rs:134-305 | the cache, the record, what is waited for and what becomes readable, for every outcome: a reliable reader marks the change Received even when its full cache discards it; a best-effort one takes it only from the expected number on and gives up what was skipped; the laws of HandOver say what follows for whole sequences |
| HandOver.WaitedFor | src/rtps/reader.rs:195-225 | from a waiting list W, a DATA makes everything cached readable, and is signalled, if and only if the numbers that have come or been skipped since cover W, in any order and whatever other writers send; otherwise nothing new is readable |
| HandOver.NotBefore | src/rtps/reader.rs:195-225 | as long as they do not cover W, nothing becomes readable and nothing is signalled |
| HandOver.BeatWaits | src/rtps/reader.rs:701-743 | W is what was missing when the last heartbeat was answered, and the answer itself makes nothing readable |
| HandOver.InOrderAtOnce | src/rtps/reader.rs:195-225 | with nothing missing the answer makes everything readable, and so does each number of a stream that goes on in order from the number after the newest known; one that is out of order does not |
| HandOver.BestEffortTakesRecords | src/rtps/reader.rs:240-303 | the newest number a best-effort reader knows is the largest it knew or was offered; it accepts just what is larger |
| HandOver.HeartbeatRecords | src/structure/proxy.rs:409-450 | for every number, what a heartbeat's range leaves on record: dropped, lost, missing or as it was |
| HandOver.GapRecords | src/rtps/reader.rs:549-597 | a GAP names the numbers from its start up to its base and those of its list; each is received and irrelevant, nothing else changes |
| HandOver.DataRecords | src/structure/proxy.rs:409-420 | a DATA is received, irrelevant if a GAP said so before; with a best-effort reader what it passes over is lost |
| StatefulReaders.Reader.MatchedWriterAdd | src/rtps/reader.rs:328-431 | a new compatible writer starts with an empty record |
| StatefulReaders.Reader.MatchedWriterRemove | src/rtps/reader.rs:498-524 | a writer that goes takes its record and its changes along |
| StatefulReaders.AnswerSaysMissing | src/rtps/reader.rs:721-743 | the bitmap of the answer, read back, is exactly the list of missing numbers |
| ReaderSteps.AnswerFits | src/rtps/reader.rs:721-743 | the set an answer carries is valid exactly when the ACKNACK counts as arriving in the runs of Delivery |
| ReaderSteps.Hear | src/rtps/reader.rs:134-784 | for every message of the writer the reader's handlers change its record of that writer, and answer, as Delivery.Receive says, leave the records of other writers alone, and do not panic; what its cache holds of the writer is what Delivery says it has got |
| HandOver.TakenRecords | src/rtps/reader.rs:237-255 | of a writer's changes exactly those the application has taken are dropped from its record |
| HistoryCaches.HistoryCache.AddChange | src/rtps/cache.rs:222-335 | the outcome for every kind of cache and QoS, panics included, the contents and the time of the writer's last change afterwards, and every index still agreeing; a full best-effort reader drops what came first |
| HistoryCaches.HistoryCache.MakeRoom | src/rtps/cache.rs:261-297 | a full cache refuses when reliable and otherwise drops its oldest sample, unless that is unprocessed |
| HistoryCaches.HistoryCache.KeepNewest | src/rtps/cache.rs:303-325 | KEEP_LAST leaves exactly the d largest keys, every index agreeing |
| HistoryCaches.StoredExactly | src/rtps/cache.rs:303-325 | a KEEP_LAST reader stores its d largest changes unaltered, or all; any other cache stores all |
| HistoryCaches.NewestAreTheLargest | src/rtps/cache.rs:303-325 | the keys kept are d in number, or all, and each is larger than every key that goes |
| HistoryCaches.NewestInList | src/rtps/cache.rs:303-325 | in ascending order the keys kept are the last d |
| HistoryCaches.HistoryCache.RemoveChange | src/rtps/cache.rs:452-491 | an unprocessed change stays; any other leaves every index, and is noted as taken if it was |
| HistoryCaches.HistoryCache.RemoveChangesFromWriter | src/rtps/cache.rs:431-443 | exactly the changes of that writer go |
| HistoryCaches.HistoryCache.GetUnprocessed | src/rtps/cache.rs:337-343 | hands the unprocessed numbers over once |
| HistoryCaches.HistoryCache.GetTakenLessThan | src/rtps/cache.rs:359-374 | hands over exactly the taken keys of one writer below a number and keeps the others |
| HistoryCaches.HistoryCache.Flush | src/rtps/cache.rs:385-397 | every cached change becomes readable |
| HistoryCaches.HistoryCache.GetReadyChanges | src/rtps/cache.rs:399-411 | exactly the alive ready changes, in (number, GUID) order, and no panic |
| HistoryCaches.HistoryCache.GetSeqNumMin | src/rtps/cache.rs:492-504 | the smallest number that has been handed to the proxies, or 0 |
| HistoryCaches.HistoryCache.GetSeqNumMax | src/rtps/cache.rs:505-517 | the largest such number, or 0 |
| DataReaders.DataReader.Take | src/dds/datareader.rs:73-118 | reads exactly the ready changes with data, in strictly increasing (number, GUID) order, and decodes them; the ready changes leave the cache, noted as taken, and the rest stays; a payload that is not CDR is a panic and nothing leaves |
| DataReaders.SampleRoundTrip | src/message/submessage/element.rs:511-547 | a sample packed by one application and unpacked by another is the same if and only if its chars are below 256, in both byte orders |
| DataReaders.PackedOctets | src/message/submessage/element.rs:511-547 | the payload of a sample of mixed types, octet by octet in both byte orders: 0 and 0 or 1 for the byte order, no options, then the CDR octets |
| DataReaders.DecodedExactly | src/dds/datareader.rs:84-118 | nothing read gives no sample, one change gives one or, if its octets are not of the type, none, and the samples of two batches follow each other |
| DataReaders.SampleArrives | src/message/submessage/element.rs:489-511 | a sample can arrive if and only if its type takes memory and its octets fit a datagram; of a type that takes none, such as a struct without fields, no sample does |
| DataWriters.DataWriter.TryWrite | src/dds/datawriter.rs:115-166 | a number is spent exactly when the cache takes the change; a blocked write changes nothing |
| DataWriters.PayloadsCount | src/rtps/cache.rs:261-275 | a writer has as many numbers in use as changes in its cache, so both sides agree on when it is full |
| MessageCover.MinMessageCover | src/rtps/writer.rs:834-859 | every (reader, locator) pair is served, nothing is sent that no pair needs, and there are as many messages as locators if and only if no private locator is listed twice |
| MessageCover.NoCoverIsSmaller | src/rtps/writer.rs:834-859 | no list of messages covers the readers with fewer messages than locators |
| MessageCover.TakenInExactly | src/rtps/writer.rs:834-859 | whichever cover is sent, any reader takes a message in if and only if some target is at one of its locators, and two targets listen there or their entity ids do not tell them apart |
| MessageCover.ReachesJustTheTargets | src/rtps/writer.rs:834-859 | every cover is taken in by just the readers it is for, if and only if no other reader listens where two or more targets do or where one does with its entity id |
| SharedLocators.RelevantChangeLost | src/rtps/writer.rs:834-859 | a run with a shared locator, each step by a handler: whatever cover is sent, a GAP for two late readers reaches a third one whose only DATA was lost; what it answers to the next heartbeat acknowledges the change, asks for nothing, and the writer drops it |
| Cdr.RoundTrip | ddsdata_derive/src/lib.rs:205-449 | for every type and value, in both byte orders, reading the written octets gives the value with chars cut to an octet, uses exactly those octets and ends at the same __cdr_offset |
| Cdr.NarrowIsSame | ddsdata_derive/src/lib.rs:205-449 | cutting chars leaves the value as it was if and only if every char is below 256, map keys included |
| Cdr.StructRoundTrip | ddsdata_derive/src/lib.rs:468-564 | a sample of any struct type comes back if and only if its chars are below 256 |
| Cdr.AlignedExactly | ddsdata_derive/src/lib.rs:329-449 | for every type and value, each number and length prefix lands at a multiple of its size if and only if the octets of structs passed over so far are such a multiple |
| Cdr.FlatInStep | ddsdata_derive/src/lib.rs:329-449 | without structs inside nothing is passed over and everything is aligned |
| Alignments.AlignedByType | ddsdata_derive/src/lib.rs:329-449 | a condition on the type alone, where values can end modulo 8: it is enough for every sample to be aligned, and without maps every sample is aligned if and only if it holds |
| CdrOctets.WrittenOctets | ddsdata_derive/src/lib.rs:329-449 | for every type and value, offset and byte order, what is written is these octets: zeros up to a multiple of the size, 1, 2, 4 or 8 octets least or most significant first, two's complement, a char's low octet; a string as its length and a 0 after it, a vector and a map as their count and their elements, a struct from offset 0 |
| CdrOctets.RangesExactly | ddsdata_derive/src/lib.rs:405-411 | which numbers each primitive type holds |
| CdrOctets.NumberOctets | ddsdata_derive/src/lib.rs:413-427 | one, two, four and eight octets of a number, in both byte orders |
| CdrOctets.MixedSample | ddsdata_derive/src/lib.rs:329-449 | a struct of a u8, a u16, a string, a vector of i16, a map from char to bool and a nested struct, to the last octet in both byte orders |
| CdrOctets.TextExactly | ddsdata_derive/src/lib.rs:267-280 | the octets read as a String are exactly those that spell a sequence of Unicode scalar values in UTF-8 |
| CdrOctets.MalformedTexts | ddsdata_derive/src/lib.rs:267-280 | a string without room for its 0, longer than what is left, or not UTF-8 is an error |
| CdrOctets.MalformedCounts | ddsdata_derive/src/lib.rs:208-265 | a negative count is a panic for a vector and no entry for a map; a number cut short is an error; any octet but 0 is true |
| Cdr.StructAligned | ddsdata_derive/src/lib.rs:528-564 | the same for whole samples; without structs inside __cdr_offset counts the octets written |
| Cdr.NestedMisaligns | ddsdata_derive/src/lib.rs:329-449 | a concrete struct with a struct inside whose u32 is misaligned |
| CdrStreams.Serializer.Put | ddsdata_derive/src/lib.rs:329-449 | the emitted writer, with its moving offset, puts out the octets Cdr.Write gives, which CdrOctets.WrittenOctets spells out |
| CdrStreams.Deserializer.Get | ddsdata_derive/src/lib.rs:205-327 | the emitted reader gives what Cdr.ReadVal gives: a value, an error (a string that is not UTF-8 among them) or the panic of a negative vector length; with Cdr.RoundTrip that is the inverse of the octets of CdrOctets.WrittenOctets, and of others what CdrOctets.MalformedTexts and CdrOctets.MalformedCounts say |
| CdrStreams.ThereAndBack | ddsdata_derive/src/lib.rs:468-564 | a sample written and read again is the same if and only if its chars are below 256, and the buffer is used up |
| SequenceNumberSets.FromVec | src/message/submessage/element.rs:117-133 | the loop builds the set SequenceNumberSets.FromList gives |
| SequenceNumberSets.Set | src/message/submessage/element.rs:102-116 | the loops list the numbers whose bits are set, in order |
| SequenceNumberSets.RoundTrip | src/message/submessage/element.rs:102-133 | from_vec and set give a list back, in the right number of words, if and only if it is strictly ascending |
| SequenceNumberSets.NumbersAscend | src/message/submessage/element.rs:102-116 | whatever the bitmap, its numbers come out strictly ascending |
| WireFormats.WordExactly | src/message/submessage/element.rs:102-133 | bit k of a word is worth 2 to the power of 31 - k: setting it adds that much, testing it looks there |
| WireFormats.SaidExactly | src/message/submessage/element.rs:102-116 | number base + 32 i + k is in a set if and only if that bit of word i is set and within numBits |
| SequenceNumberSets.SetRoundTrip | src/message/submessage/element.rs:134-139 | size is the length on the wire, and a set comes back whole |
| SequenceNumberSets.NumberRoundTrip | src/message/submessage/element.rs:75-92 | high and low halves give any 64-bit number back |
| WireFormats.SubmessageOctets | src/message/submessage.rs:37-51 | every submessage as built, octet by octet: its identifier, its flags, the length of its fields, the fields |
| WireFormats.HeaderOctets | src/message/message_header.rs:26-42 | the message header: "RTPS", version 2.3, no vendor, the prefix |
| WireFormats.CutShort | src/message.rs:36-60 | a submessage header or body that is cut short is a panic |
| WireFormats.UnknownSkipped | src/message.rs:36-190 | a submessage of a kind nobody knows is skipped by its length, or to the end of the message if that is 0 and it is not padding |
| WireFormats.HeartbeatParsed | src/message.rs:36-190 | a HEARTBEAT is read in the byte order its flag says, with its length or with length 0 as the last submessage |
| WireFormats.InvalidTimestamp | src/message.rs:36-190 | INFO_TS without a length has no fields, and what follows it is read on |
| WireFormats.DataRules | src/message/submessage/element/data.rs:32-96 | DATA without inline QoS: what is too short, what passes over octets, when there is a payload, when it is an error and when a panic |
| WireFormats.GuidParts | src/structure/guid.rs:6-25 | of the 16 octets of a GUID the first 12 are the prefix and the last 4 the entity |
| Messages.MessageRoundTrip | src/message.rs:25-211 | parsing a built message gives the header and the submessages back in order, an invalid timestamp as none and inline QoS values with their padding, if and only if no payload is empty; otherwise the whole message is a read error; every length field is the number of octets of its body |
| Messages.Parse | src/message.rs:36-190 | the loop ends and gives what the parsing function gives: each body in the byte order its flag says, a length of 0 as section 9.4.5.1.3 of RTPS 2.3 says |
| Messages.ParseMessage | src/message.rs:25-190 | fewer than 20 octets are a panic; otherwise the header, none of its fields checked, and the submessages |
| Messages.ReadParameterList | src/message/submessage/element.rs:195-213 | the loop over the parameters of an inline QoS ends and gives what the parsing function gives |
| Messages.DeserializeData | src/message/submessage/element/data.rs:32-96 | the cursor reads what the function on slices says, inline QoS and panics included |
| Messages.DeliverableExactly | src/message/submessage/element.rs:489-511 | a payload counts as one that can arrive if and only if the message with its DATA, built as the writer builds it, fits a datagram and is parsed back as it was |
| Messages.DataRoundTrip | src/message/submessage/element/data.rs:32-125 | a DATA body comes back, the values of an inline QoS with their padding, unless its payload is nothing but the four octets of its header, which is an error |
| Messages.MessageBuilder.InfoTs | src/message/message_builder.rs:28-54 | one submessage with the flags and length its body calls for; no timestamp is sent as the invalid one |
| Messages.MessageBuilder.InfoDst | src/message/message_builder.rs:56-74 | one submessage with the flags and length its body calls for |
| Messages.MessageBuilder.AckNack | src/message/message_builder.rs:76-103 | one submessage with the flags and length its body calls for |
| Messages.MessageBuilder.Heartbeat | src/message/message_builder.rs:105-138 | one submessage with the flags and length its body calls for |
| Messages.MessageBuilder.Data | src/message/message_builder.rs:140-177 | one submessage with the flags its body calls for and the length of the body cut to 16 bits |
| Messages.MessageBuilder.Gap | src/message/message_builder.rs:179-198 | one submessage with the flags and length its body calls for |
| Spdp.ParticipantRoundTrip | src/discovery/structure/data.rs:255-288 | reading an announcement and rebuilding the participant gives the original, all four locator lists in order, if and only if IPv4 locators have their leading zeros and the octets are little-endian or the domain id is 0; otherwise a panic, or a participant with domain id 0 |
| WireFormats.AnnouncedOctets | src/discovery/structure/data.rs:1067-1159 | every parameter of an announcement and the sentinel, octet by octet in both byte orders |
| WireFormats.CollectRules | src/discovery/structure/data.rs:450-711 | padding is two octets, an unknown parameter is passed over by its length, the list ends with the sentinel and is an error without one |
| WireFormats.LeastAnnouncement | src/discovery/structure/data.rs:255-288 | version, vendor, GUID and endpoints are enough for a participant; the rest takes its defaults, a lease of 100 seconds among them |
| Spdp.ParamsRoundTrip | src/discovery/structure/data.rs:450-711 | any list of these parameters, ended by the sentinel, is collected in order, or is a panic if a locator is not acceptable |
| Spdp.LocatorsAbsorbed | src/discovery/structure/data.rs:450-711 | a locator list of any length arrives in order |
| Spdp.ReadParticipant | src/discovery/structure/data.rs:450-711 | the parameter loop ends and collects what the function says |
| Spdp.ListWriter.PutParticipant | src/discovery/structure/data.rs:1067-1159 | the statements of the writer put out the announcement, parameter by parameter |

## Left out

- Best-effort and builtin writers: their caches evict or are never trimmed, SPDP re-sends its one sample, and their locator choice differs; the proofs are about reliable user-defined writers.
- Liveliness, deadlines, timers, status notifications, sockets, channels and logging: a message sent is an element of `out`, a notification is a count.
- QoS matching other than durability: `restCompatible` stands for the rest.
- Timestamps, heartbeat and ACKNACK counts, which no handler of the model looks at.
- Nonzero response delays in `Delivery`, `Convergence` and `LossFree`; the handlers themselves are modelled with and without.
- Exactly-once or gapless delivery to the application: a repeated DATA is added again after it was taken, and a flush makes the changes of all writers readable. What is proved is that a change was received.
- A full cache of a reliable reader discards a sample and yet marks it Received; the no-loss theorem is about being Received.
- A reader that finds a writer anew, with an empty record, has not lost what it got before: `got` remembers it.
- GUIDs are numbers whose order is the order of their octets; one reader keeps its durability for the whole run.
- The i64 limits of sequence numbers: the model counts without bound, and where the source starts a search from MAX or MIN the model says "none found".
- SequenceNumberSets.FromVec: a number below the base is excluded; in the source the shift would overflow.
- SequenceNumberSets.SetRoundTrip: `size` is a 16-bit number in the source, which a valid set does not reach.
- Cdr.RoundTrip: lengths fit the signed 32-bit prefix; memory does not run out, and the byte reader underneath reports a request beyond its input as an error; strings are their UTF-8 octets; floating-point numbers are their bit patterns; a map is its entries in the order they are walked, as a HashMap has no order of its own.
- Types the derive macros refuse, generics, renamed fields and the MD5 key hash.
- Messages.MessageRoundTrip: little-endian only, as every sender in the repository writes; bodies stay below 65536 octets. A longer DATA, whose length the builder cuts to 16 bits, does not fit a datagram (`Messages.DeliverableExactly`).
- A datagram holds 65507 octets, as over IPv4 without options; sending a longer one fails.
- The rounds of `Convergence` and `LossFree`: nothing is written during them, and the application takes nothing while repairs arrive; what it took before the heartbeat arrived counts. ACKNACKs of one reader keep their order in `LossFree`; in `Delivery` they do not.
- LossFree.AllSettle: with several readers, that every answer fits is enough but not necessary: a gap can become narrower when the acknowledgements of other readers move the range.
- Alignments.AlignedByType: for types with maps one direction only, as the keys of a map differ and there may not be as many entries as it would take.
- Messages.Parse: the length of a submessage header is read in the host's byte order, taken to be little-endian.
- DATA_FRAG, HEARTBEAT_FRAG, NACK_FRAG, INFO_SOURCE and INFO_REPLY in messages: their octets are kept unread; the group fields of HEARTBEAT are not looked at.
- The message receiver's bookkeeping of source and destination.
- Spdp.ReadParticipant: parameters of endpoint data, properties and names end in `NotModelled`; the domain tag is never sent.
- Participant data after SPDP: the discovery database, SEDP and its QoS parameters.
- DataReaders.DataReader.Take: types with a hand-written reader; the samples are of a derived struct type.
- StatefulWriters.Writer.MatchedReaderAdd: of the reader's QoS only durability is kept, as no other policy is looked at after matching; compatibility of the others is one flag; expects_inline_qos, which the writer never looks at, is not kept.
- HistoryCaches.HistoryCache.AddChange: time-based filters and instance handles are not looked at by the source and are not modelled.
- StatefulReaders.Reader.MatchedWriterAdd: locators and QoS of the remote writer, which no rule of the record depends on.
- DataWriters.DataWriter.TryWrite: one pass of the retry loop; how long a blocked write waits is up to the other thread.
