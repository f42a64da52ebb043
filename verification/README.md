# BulkIO streams, attachments and bandwidth, verified

A Dafny model of the parts of REDHAWK that move streams of samples between components, with
proofs about it. `dafny verify dfyconfig.toml` checks everything.

The five stages of a BulkIO stream are modelled as the objects and loops they are, each proved
against functions on plain values, about which the theorems are then stated:

- **Writing.** `OutStreams` holds the buffered output stream (an array that is filled and
  replaced) and the output port; `Buffering` is its specification. What is sent and what is
  buffered is always what was written, with the right times; `Emissions` says packet by packet, in
  plain numbers, what each operation sends and leaves.
- **Sending.** `Transports` is one connection with its version map and its splitting loop;
  `Wire` and `Chunking` specify it. A connection carries the script of how its coming remote calls
  will end, so every pattern of failures is covered. `Bracketing` proves that each stream ID's
  messages come in properly opened and closed groups, `SriInForce` and `Delivery` that every
  sample arrives with the SRI it was written under, and `Failures` what is left of that when calls fail.
- **Queueing.** `InputStreams.InPort` is the input port. `PacketQueue` says what an overflow
  makes of the queue and `QueueLoops` proves the loops that do it; `Ledger` follows every packet
  through any mix of pushes, overflows and fetches and proves that losses are reported;
  `StreamCells` counts the streams that share an ID.
- **Reading.** `InputStreams.BufferedInputStream` is the stream reader. `Segments` is what a
  reader should see: the samples still to come, cut at SRI changes and flushes. `StreamBuffer`
  ties the fields to it, `Cursors` follows the packets with their flags to the reader, `Assembly`
  and `DataBlocks` build the blocks and their timestamps, `Availability` is the promise of
  samplesAvailable and `Miscount` a run that breaks it, `TimedWrites` and `BlockCopies` pass a
  block on.
- **End to end.** `EndToEnd.Pipeline` joins a writer, a connection, an input port and a reader:
  samples passed by the reader, held and queued for it, on the way, and in the writer's buffer are
  at every moment exactly what was written. `EndToEnd.Connect` builds one from nothing.

Beside the pipeline stand the attachable port of SDDS and VITA49 (`Attachments`, `Attachable`,
sharing the filter table of `Filters`), the network bandwidth allocator (`NicReservation`), and
exact arithmetic on timestamps (`PrecisionTime`).

Where the code does less than one might expect, the model follows the code:

- A pushSRI that fails leaves its version on record, and the output port does not mark the
  connection dead (it does in `_sendPacket`): later packets then go out without an SRI
  (`Bracketing.LostSriUnbrackets`).
- An empty end-of-stream that takes over the payload of a marked packet loses the mark
  (`Ledger.MarkCanBeMuted`); for streams whose end has not been pushed marks are exact.
- A port of capacity 0 drops packets without a mark (`Ledger.ZeroCapacityIsSilent`).
- samplesAvailable divides what is held and what the port adds separately, so mixed modes and half
  samples can make it wrong (`Availability.MixedModesMiscount`; `Availability.AvailableLength` says
  exactly when it is right). At a stopped port it still counts the port's packets although no read
  will get them (`Availability.SamplesAvailableStopped`).
- On complex streams the time of the rest of a split write advances by scalars, not samples
  (`Buffering.DoBufferSplit`); `Buffering.RunTimedSamples` says exactly which runs are stamped right.
- With a frame larger than the transport's limit the splitting loop never ends
  (`Chunking.StuckWithoutRoom`); everything else assumes a frame fits.
- pushSRI of the attachable port overwrites the SRI of an entry but not its time.
- An input stream with an empty ID would take the packets of every stream
  (`InputStreams.EmptyIdTakesAny`); streams have a non-empty ID here.
- An end-of-stream that is lost leaves its version on record, and the next stream of the ID can be read
  with the SRI of the one before (`SriInForce.LostEosMisleads`); `SriInForce.RunInForceExactly` says
  exactly which runs are read right, and `Failures.StreamInForce` that those of one open stream are.
- Packets of half a complex sample can give a block two timestamps of the same sample
  (`Assembly.HalvesCollide`) and be written on with the packet behind them
  (`BlockCopies.HalfJoinsNext`); blocks of whole samples are not affected.
- A connectPort that is left by an exception keeps the attachments made before it: they stay until a
  disconnectPort of that ID (`Attachable.OutAttachablePort.ConnectPort`).
- The offset of a later timestamp is cut to the number of scalars before it is doubled for a complex
  stream, so an offset past half of them runs past the end of the data (`TimedWrites.ComplexOverrun`);
  `TimedWrites.InsideExactly` says exactly which lists stay inside, and `WriteMultiple` asks for no more.
- Timestamps that are not normalised are ordered wrongly (`PrecisionTime.OrderingNeedsNormalForm`).

## Model

| member | source | states |
|---|---|---|
| `PrecisionTime.Normalize` | bulkioInterfaces/libsrc/cpp/bulkio_time_helpers.cpp:83-99 | the total of whole and fractional seconds is kept, and the result is the one timestamp of that total with integral seconds and a fraction in [0,1) |
| `PrecisionTime.NormalFormUnique` | bulkioInterfaces/libsrc/cpp/bulkio_time_helpers.cpp:83-99 | two normalised timestamps of the same total are equal: the normal form is unique |
| `PrecisionTime.Add` | bulkioInterfaces/libsrc/cpp/bulkio_time_operators.cpp:30-44 | adding seconds moves the instant by exactly that much and normalises, whatever the signs |
| `PrecisionTime.Subtract` | bulkioInterfaces/libsrc/cpp/bulkio_time_operators.cpp:46-65 | subtracting seconds moves the instant back by exactly that much and normalises |
| `PrecisionTime.AddThenSubtract` | bulkioInterfaces/libsrc/cpp/bulkio_time_operators.cpp:37-65 | (t+s)-t is s for every t, and (t+s)-s is t if and only if t is normalised |
| `PrecisionTime.PlusPlus` | bulkioInterfaces/libsrc/cpp/bulkio_time_operators.cpp:30-44 | adding a and then b is adding a+b, as timestamps and not only as instants |
| `PrecisionTime.OrderingIsChronological` | bulkioInterfaces/libsrc/cpp/bulkio_time_operators.cpp:99-133 | on normalised timestamps the lexicographic <, <=, > and >= are the order of instants |
| `PrecisionTime.OrderingNeedsNormalForm` | bulkioInterfaces/libsrc/cpp/bulkio_time_operators.cpp:99-133 | and only there: a timestamp is ordered rightly against all normalised ones if and only if it is normalised |
| `PrecisionTime.AddSampleOffset` | bulkioInterfaces/libsrc/cpp/bulkio_time_helpers.cpp:72-81 | the instant moves by n*xdelta always; for normalised t the result equals t + n*xdelta as a timestamp if and only if the new fraction does not go negative, so always for xdelta >= 0 |
| `PrecisionTime.TimeAtAdd` | bulkioInterfaces/libsrc/cpp/bulkio_time_operators.cpp:30-44 | the sample j steps after the k-th has the time of the (k+j)-th |
| `QueueLoops.FlushLoop` | bulkioInterfaces/libsrc/cpp/bulkio_in_port.cpp:394-472 | the reverse loop with its back-counted index map computes the collapsed queue |
| `QueueLoops.FlushInto` | bulkioInterfaces/libsrc/cpp/bulkio_in_port.cpp:434-458 | what a dropped packet hands on: payload and time to an empty newer packet, otherwise a flush mark; its SRI change always |
| `PacketQueue.CollapseOrder` | bulkioInterfaces/libsrc/cpp/bulkio_in_port.cpp:394-472 | the survivors are exactly the packets that are an end-of-stream or the last of their stream ID, in their original order, with their SRIs |
| `PacketQueue.CollapseLane` | bulkioInterfaces/libsrc/cpp/bulkio_in_port.cpp:394-472 | seen from one stream ID, each incarnation is folded into its last packet, and nothing else happens |
| `PacketQueue.FoldKeeps` | bulkioInterfaces/libsrc/cpp/bulkio_in_port.cpp:434-458 | a folded packet is the last of its incarnation, with an SRI change iff any of them had one |
| `PacketQueue.FoldData` | bulkioInterfaces/libsrc/cpp/bulkio_in_port.cpp:434-458 | it carries the last payload of its incarnation with that payload's time, and the flush mark iff it had it or at least two packets held data |
| `PacketQueue.IncarnationsMeaning` | bulkioInterfaces/libsrc/cpp/bulkio_in_port.cpp:394-472 | incarnations partition a lane, each ended by its end-of-stream and only the last left open |
| `PacketQueue.LaneCollapse` | bulkioInterfaces/libsrc/cpp/bulkio_in_port.cpp:394-472 | collapsing the queue and looking at one stream ID commute: overflow never mixes streams |
| `PacketQueue.LaneWithout` | bulkioInterfaces/libsrc/cpp/bulkio_in_port.cpp:730-749 | taking a stream's first packet leaves every other stream's packets as they were |
| `PacketQueue.LanePushFull` | bulkioInterfaces/libsrc/cpp/bulkio_in_port.cpp:332-374 | a push on a full queue, seen from any stream ID: its own lane is collapsed and its last packet without end-of-stream replaced, all others are only collapsed |
| `PacketQueue.PushFullIs` | bulkioInterfaces/libsrc/cpp/bulkio_in_port.cpp:332-374 | in the collapsed queue the last packet of the stream ID goes, unless it is an end-of-stream, and the new one joins the end marked as flushed, with the SRI change of the one that went and no other |
| `PacketQueue.PushFullNew` | bulkioInterfaces/libsrc/cpp/bulkio_in_port.cpp:332-374 | without a packet of the ID it joins the end as it is |
| `QueueLoops.FetchLoop` | bulkioInterfaces/libsrc/cpp/bulkio_in_port.cpp:730-749 | the search hands out the stream's first packet and removes that one alone, or nothing when there is none |
| `QueueLoops.CountEosLoop` | bulkioInterfaces/libsrc/cpp/bulkio_in_port.cpp:206-211 | the loop counts the stream's queued end-of-streams |
| `QueueLoops.ReplaceLoop` | bulkioInterfaces/libsrc/cpp/bulkio_in_port.cpp:349-362 | the backward search finds the stream's last packet to replace, unless that is an end-of-stream |
| `QueueLoops.SamplesAvailableLoop` | bulkioInterfaces/libsrc/cpp/bulkio_in_port.cpp:800-820 | the samples of the stream's queued packets up to the first that breaks the segment, halved if any is complex |
| `QueueLoops.UnbrokenIs` | bulkioInterfaces/libsrc/cpp/bulkio_in_port.cpp:800-820 | those packets are the longest run without sriChanged and inputQueueFlushed, the first packet left out of account for an empty stream |
| `Ledger.StepSound` | bulkioInterfaces/libsrc/cpp/bulkio_in_port.cpp:332-472 | push, overflow for another stream, and fetch keep the account of a stream's losses honest |
| `Ledger.RunSound` | bulkioInterfaces/libsrc/cpp/bulkio_in_port.cpp:332-472 | in every run every packet delivered or queued is honest: payloads in the order pushed, no end-of-stream skipped, marked exactly when packets were lost before it, but for the muted marks |
| `Ledger.NoSilentLoss` | bulkioInterfaces/libsrc/cpp/bulkio_in_port.cpp:271-390 | the same for every run of a real queue with any mix of stream IDs, positive capacities, blocking and fetches: the account describes that queue |
| `Ledger.OpenStreamMarks` | bulkioInterfaces/libsrc/cpp/bulkio_in_port.cpp:332-374 | in every such run, for a stream whose end has not been pushed, the deliveries are an in-order subsequence of the pushes, and each carries inputQueueFlushed exactly when a packet was dropped since the one before |
| `Ledger.MarkCanBeMuted` | bulkioInterfaces/libsrc/cpp/bulkio_in_port.cpp:436-448 | the exception is real: a run of a queue of capacity 2 in which an empty end-of-stream takes over a marked packet's payload without the mark |
| `Ledger.ZeroCapacityIsSilent` | bulkioInterfaces/libsrc/cpp/bulkio_in_port.cpp:288-291 | the positive capacity is needed: a port of capacity 0 drops a packet and the next one comes out unmarked |
| `InputStreams.InPort.LedgerPushes` | bulkioInterfaces/libsrc/cpp/bulkio_in_port.cpp:271-390 | the queue the account describes takes, refuses and collapses exactly what the port's own push does |
| `InputStreams.InPort.LedgerFetches` | bulkioInterfaces/libsrc/cpp/bulkio_in_port.cpp:730-749 | and gives up and delivers exactly what the port's own fetch takes |
| `StreamCells.RunBalanced` | bulkioInterfaces/libsrc/cpp/bulkio_in_port.cpp:173-227 | in every run the streams held for an ID are its queued end-of-streams, plus one fetched but unreported, plus one for a registration; a registered ID never meets the branch that opens a further stream |
| `StreamCells.StepOk` | bulkioInterfaces/libsrc/cpp/bulkio_in_port.cpp:173-390 | one step of that, and what follows a queued end-of-stream starts with an SRI change |
| `StreamCells.NeverAllEnded` | bulkioInterfaces/libsrc/cpp/bulkio_in_port.cpp:215-217 | the branch of pushSRI for a registered ID whose streams have all ended never fires |
| `InputStreams.InPort.PushSri` | bulkioInterfaces/libsrc/cpp/bulkio_in_port.cpp:173-227 | the registration and streams of the SRI's ID change as the count demands, and a stream that is opened holds nothing; at a port in order a registered ID gets the new SRI, marked as news, iff there is a comparator and it tells the two apart, and is left alone otherwise; so is every other ID, and order is kept |
| `InputStreams.InPort.Renew` | bulkioInterfaces/libsrc/cpp/bulkio_in_port.cpp:205-226 | an SRI for a registered ID opens a stream, holding nothing, iff all streams of the ID have ended, and is registered iff it differs and none was opened |
| `InputStreams.InPort.Accept` | bulkioInterfaces/libsrc/cpp/bulkio_in_port.cpp:303-326 | a packet goes with the registered SRI and its news flag, or opens a stream with the default SRI that holds nothing |
| `InputStreams.InPort.Enqueue` | bulkioInterfaces/libsrc/cpp/bulkio_in_port.cpp:328-374 | the queue after a push, full or not |
| `InputStreams.InPort.Admit` | bulkioInterfaces/libsrc/cpp/bulkio_in_port.cpp:297-390 | registration, queue and deregistration for a packet let in, for its stream ID and for all others; an unknown ID opens an empty stream |
| `InputStreams.InPort.QueuePacket` | bulkioInterfaces/libsrc/cpp/bulkio_in_port.cpp:271-390 | which packets are dropped at once, when a blocking port makes the caller wait with nothing changed, and otherwise the arrival; with room the packet joins the queue's end with the SRI and the news flag of its registration, or the default SRI and an SRI change, and no flush mark; counts in order for every ID stay in order |
| `EndToEnd.SriThenPacket` | bulkioInterfaces/libsrc/cpp/bulkio_in_port.cpp:173-390 | pushSRI and then pushPacket at a port in order with room: the packet is queued under the new SRI with an SRI change iff the comparator tells it from the registered one; otherwise under the registered one, with the change that was still to be told |
| `InputStreams.InPort.FetchPacket` | bulkioInterfaces/libsrc/cpp/bulkio_in_port.cpp:730-749 | the first packet of a stream ID, or of the whole queue when the ID is empty |
| `InputStreams.InPort.HandleEos` | bulkioInterfaces/libsrc/cpp/bulkio_in_port.cpp:771-786 | blocking is turned off iff the ID is not registered or no registered SRI asks for blocking |
| `InputStreams.InPort.NextPacket` | bulkioInterfaces/libsrc/cpp/bulkio_in_port.cpp:623-683 | nothing from a stopped port; otherwise the stream's first packet, or the first of all for the empty ID, with every lane but the packet's own untouched; an end-of-stream may turn blocking off |
| `InputStreams.EmptyIdTakesAny` | bulkioInterfaces/libsrc/cpp/bulkio_in_port.cpp:730-749 | a fetch takes a packet of another stream if and only if it is for the empty ID and the first packet of the queue is of a stream that has one |
| `InputStreams.InPort.RemoveStream` | bulkioInterfaces/libsrc/cpp/bulkio_in_port.cpp:823-848 | the active stream is closed and leaves, and the next one waiting for the ID takes its place with its own SRI and nothing held; no other ID is touched |
| `InputStreams.InPort.CreateStream` | bulkioInterfaces/libsrc/cpp/bulkio_in_port.cpp:709-727 | the stream becomes active, holding nothing, or waits last behind the active one, and streams that were there stay |
| `InputStreams.InPort.SoundThroughout` | bulkioInterfaces/libsrc/cpp/bulkio_in_port.cpp:173-390 | the counts of streams held are in order at the port for every ID if they are for the one ID that changed |
| `InputStreams.BufferedInputStream.Opened` | bulkioInterfaces/libsrc/cpp/bulkio_in_port.cpp:709-727 | the base case: a stream just opened, or moved up, at a port in order satisfies the whole invariant of a stream, with what the port holds for its ID to read |
| `InputStreams.BufferedInputStream.MovedUp` | bulkioInterfaces/libsrc/cpp/bulkio_in_port.cpp:823-848 | so the next incarnation of a reused ID is ready as soon as the end of the one before is reported, under the SRI it was announced with |
| `InputStreams.InPort.SamplesAvailable` | bulkioInterfaces/libsrc/cpp/bulkio_in_port.cpp:800-820 | what the port adds to a stream's available samples |
| `StreamBuffer.FetchedView` | bulkioInterfaces/libsrc/cpp/bulkio_in_stream.cpp:647-692 | fetching changes neither the segments still to be read nor whether the stream has ended, and keeps the representation invariant |
| `StreamBuffer.ConsumedView` | bulkioInterfaces/libsrc/cpp/bulkio_in_stream.cpp:508-542 | passing samples in the front packet advances the reader's segments by exactly that, keeps the invariant, and moves the end-of-stream state only from received to reached |
| `StreamBuffer.NothingToFetch` | bulkioInterfaces/libsrc/cpp/bulkio_in_stream.cpp:423-436 | once nothing can be fetched, what is held is the whole current segment, and pending or end-of-stream tell that it has ended |
| `StreamBuffer.HeldIsVisible` | bulkioInterfaces/libsrc/cpp/bulkio_in_stream.cpp:384-443 | what is held is a prefix of what can be read, stopped port or not, and all of it when fetching is over |
| `InputStreams.BufferedInputStream.VisiblePackets` | bulkioInterfaces/libsrc/cpp/bulkio_in_stream.cpp:647-697 | over the packets held, set aside and queued: what can be read is exactly their payloads from the cursor up to an end-of-stream or to the first one behind the front that has payload and carries sriChanged or inputQueueFlushed, and the segment has ended iff there is one or the end was received |
| `StreamBuffer.AcknowledgedView` | bulkioInterfaces/libsrc/cpp/bulkio_in_stream.cpp:551-560 | using up the front packet's flags changes nothing else for the reader |
| `StreamBuffer.ReportedView` | bulkioInterfaces/libsrc/cpp/bulkio_in_stream.cpp:158-167 | reporting the end changes nothing the reader could still get |
| `StreamBuffer.ArriveView` | bulkioInterfaces/libsrc/cpp/bulkio_in_port.cpp:297-390 | a packet that joins the port's queue joins what the stream's reader has in front of it |
| `StreamBuffer.PiecesData` | bulkioInterfaces/libsrc/cpp/bulkio_in_stream.cpp:562-600 | the stretches a block is copied from are, end to end, the held samples asked for |
| `InputStreams.BufferedInputStream.ToComeIs` | bulkioInterfaces/libsrc/cpp/bulkio_in_stream.cpp:647-697 | the packets to come to the reader are, of those held, set aside and queued up to the first end-of-stream, exactly the ones with payload, as they are and in that order |
| `Cursors.FetchedComing` | bulkioInterfaces/libsrc/cpp/bulkio_in_stream.cpp:647-692 | fetching a packet, queueing it or setting it aside leaves the packets to come as they were, flags and times included |
| `Cursors.ConsumedComing` | bulkioInterfaces/libsrc/cpp/bulkio_in_stream.cpp:508-542 | passing samples passes the cursor through them, over a packet set aside too |
| `Cursors.AcknowledgedComing` | bulkioInterfaces/libsrc/cpp/bulkio_in_stream.cpp:551-560 | a block uses up the flags of the packet in front and nothing else |
| `Cursors.ArriveComing` | bulkioInterfaces/libsrc/cpp/bulkio_in_port.cpp:297-390 | a packet that arrives for an open stream joins the packets to come |
| `Cursors.ReadMoves` | bulkioInterfaces/libsrc/cpp/bulkio_in_stream.cpp:384-443 | what a read leaves: the packets used up are gone, those behind are as they were, flags and all, and if the cursor stays in the first packet only the flags of that are cleared: a flush or an SRI change is told by one block, neither lost nor told twice |
| `InputStreams.BufferedInputStream.BaseFetchPacket` | bulkioInterfaces/libsrc/cpp/bulkio_in_stream.cpp:138-156 | nothing once an end was received or at a stopped port; otherwise the port's next packet for the ID, noting an end-of-stream |
| `InputStreams.BufferedInputStream.QueuePacket` | bulkioInterfaces/libsrc/cpp/bulkio_in_stream.cpp:667-692 | a packet is queued, or an empty end-of-stream marks the last held packet or the end |
| `InputStreams.BufferedInputStream.FetchPacket` | bulkioInterfaces/libsrc/cpp/bulkio_in_stream.cpp:647-665 | the whole invariant is kept, to the reader nothing changes, and a failure means the current segment is held completely unless the port is stopped |
| `InputStreams.BufferedInputStream.ConsumePacket` | bulkioInterfaces/libsrc/cpp/bulkio_in_stream.cpp:528-542 | the front packet goes, an end-of-stream in it is reached, and a pending packet moves up |
| `InputStreams.BufferedInputStream.ConsumeData` | bulkioInterfaces/libsrc/cpp/bulkio_in_stream.cpp:508-526 | the loop advances the reader's segments by exactly the count, keeping the invariant |
| `InputStreams.BufferedInputStream.NextSri` | bulkioInterfaces/libsrc/cpp/bulkio_in_stream.cpp:636-645 | a packet is in front iff there is something visible, and the look changes nothing for the reader |
| `InputStreams.BufferedInputStream.Skip` | bulkioInterfaces/libsrc/cpp/bulkio_in_stream.cpp:445-471 | skip passes min(count samples, what is visible) and reports min(count, whole samples visible); a port in order stays in order |
| `InputStreams.BufferedInputStream.MakeBlock` | bulkioInterfaces/libsrc/cpp/bulkio_in_stream.cpp:544-600 | the block's SRI, payload, timestamps and flags are those of the packets it was cut from |
| `InputStreams.BufferedInputStream.ReadData` | bulkioInterfaces/libsrc/cpp/bulkio_in_stream.cpp:544-608 | the block is what was held, and the cursor moves by whole samples |
| `InputStreams.BufferedInputStream.Read` | bulkioInterfaces/libsrc/cpp/bulkio_in_stream.cpp:384-443 | read and tryread with count and consume are the plain segment reader: same block, same move, null exactly when it says so with the remaining sequence unchanged; SRI and flags are those of the first packet held or else queued, with a change reported for a new stream or an SRI that differs; the packets to come pass in order, each as it came but for the flags that the block told; the port's streams stay but for this one when its end is reported |
| `InputStreams.BufferedInputStream.ReadPacket` | bulkioInterfaces/libsrc/cpp/bulkio_in_stream.cpp:365-382 | null iff nothing is visible; otherwise a non-empty prefix of the visible samples that is the rest of one packet, with its SRI and flags, and the cursor passes it |
| `InputStreams.BufferedInputStream.Eos` | bulkioInterfaces/libsrc/cpp/bulkio_in_stream.cpp:329-339 | true only when nothing is left and the end was received, and then always unless the port is stopped |
| `InputStreams.BufferedInputStream.Report` | bulkioInterfaces/libsrc/cpp/bulkio_in_stream.cpp:158-167 | the stream is removed from the port's books, its end counts as reported, and the next of its ID moves up |
| `InputStreams.BufferedInputStream.SamplesAvailable` | bulkioInterfaces/libsrc/cpp/bulkio_in_stream.cpp:341-363 | own samples plus the port's, as the specification counts them |
| `Availability.SamplesAvailableExact` | bulkioInterfaces/libsrc/cpp/bulkio_in_stream.cpp:341-443 | for every n reported: each immediate tryread(k) with 0 < k <= n returns k samples and one for n+1 never more than n, if and only if the segment can be counted (the divisions by held mode and by port mode agree) |
| `Availability.AvailableLength` | bulkioInterfaces/libsrc/cpp/bulkio_in_stream.cpp:341-363 | the number reported is the whole samples of the current segment, if and only if the segment can be counted |
| `Availability.SamplesAvailableStopped` | bulkioInterfaces/libsrc/cpp/bulkio_in_stream.cpp:341-443 | at a stopped port a read of k available samples gets them exactly as far as they are held already |
| `Availability.MixedModesMiscount` | bulkioInterfaces/libsrc/cpp/bulkio_in_stream.cpp:341-363 | a segment that cannot be counted: a complex packet carries a real one on, and three scalars are reported as two samples |
| `Miscount.MixedModesReached` | bulkioInterfaces/libsrc/cpp/bulkio_in_port.cpp:332-472 | a run of a queue of capacity 2 that leads there: an overflow loses the SRI change, and an end-of-stream takes the flushed payload over without the mark |
| `Segments.OutcomeOfHeld` | bulkioInterfaces/libsrc/cpp/bulkio_in_stream.cpp:384-443 | read's case distinction on what it holds amounts to the plain reader's outcome on all that is visible |
| `Segments.OutcomeWithin` | bulkioInterfaces/libsrc/cpp/bulkio_in_stream.cpp:384-443 | the plain reader in numbers: nothing iff nothing is visible, or too little is and the call is a tryread on a segment that may grow; the block is the visible prefix of the samples asked for or all there is, and the cursor passes consume, or all whole samples at the end of a segment, or nothing for consume 0 |
| `Segments.WholeSamplesIs` | bulkioInterfaces/libsrc/cpp/bulkio_in_stream.cpp:602-608 | the cursor passes the largest multiple of a sample |
| `Segments.AdvanceExtend` | bulkioInterfaces/libsrc/cpp/bulkio_in_stream.cpp:508-526 | passing samples before or after later packets arrive is the same |
| `DataBlocks.DataBlock.AddTimestamp` | bulkioInterfaces/libsrc/cpp/bulkio_datablock.cpp:143-153 | a timestamp goes behind every one that is not later |
| `DataBlocks.PlaceSplits` | bulkioInterfaces/libsrc/cpp/bulkio_datablock.cpp:143-153 | in an increasing list that place separates the offsets not later from the later ones |
| `DataBlocks.InsertedIncreases` | bulkioInterfaces/libsrc/cpp/bulkio_datablock.cpp:143-153 | inserting keeps an increasing list increasing if and only if the offset is new |
| `DataBlocks.DataBlock.GetStartTime` | bulkioInterfaces/libsrc/cpp/bulkio_datablock.cpp:40-48 | the first timestamp's time, or the exception iff the list is empty or does not start at offset 0 |
| `Assembly.MakeTimestamp` | bulkioInterfaces/libsrc/cpp/bulkio_in_stream.cpp:610-634 | a timestamp's time is its packet's moved to where the stretch starts, its offset counts samples, and it is synthetic iff it was moved |
| `Assembly.Fill` | bulkioInterfaces/libsrc/cpp/bulkio_in_stream.cpp:562-600 | one packet or many: the payload is the held samples asked for, with one timestamp for each stretch |
| `Assembly.Span` | bulkioInterfaces/libsrc/cpp/bulkio_in_stream.cpp:569-600 | the loop across packets cuts the stretches one after the other |
| `Assembly.BlockStarts` | bulkioInterfaces/libsrc/cpp/bulkio_in_stream.cpp:562-634 | every block that is read, empty and odd ones included, has a first timestamp at offset 0, so getStartTime never throws on it |
| `Assembly.BlockTimestamps` | bulkioInterfaces/libsrc/cpp/bulkio_in_stream.cpp:562-634 | the timestamps of a non-empty block strictly increase and stay below its sample count if and only if no packet's stretch of it is a lone first half of a complex sample |
| `Assembly.HalvesCollide` | bulkioInterfaces/libsrc/cpp/bulkio_in_stream.cpp:610-634 | a block that fails: two packets of half a complex sample each have timestamps of the same sample |
| `Assembly.BlockUnbroken` | bulkioInterfaces/libsrc/cpp/bulkio_in_stream.cpp:544-600 | a block is a prefix of what is held, of which no packet behind the first carries sriChanged or inputQueueFlushed; its SRI and flush mark are the first packet's, and it reports an SRI change iff the stream is new or the first packet has one and another SRI |
| `Assembly.BlockStamp` | bulkioInterfaces/libsrc/cpp/bulkio_in_stream.cpp:610-634 | the i-th timestamp in numbers: its offset is the samples before it, its seconds are its packet's, plus start*xdelta (half of it on complex data) for a first packet begun within, and it is synthetic iff it was moved |
| `DataBlocks.StampsIncrease` | bulkioInterfaces/libsrc/cpp/bulkio_in_stream.cpp:610-634 | the same of any non-empty stretches, from whatever position on |
| `Chunking.PushSizeWhole` | bulkioInterfaces/libsrc/cpp/CorbaTransport.cpp:177-183 | the push size is the largest whole number of frames within the limit, is whole samples, and is positive iff a frame fits |
| `Chunking.PushSizeFigures` | bulkioInterfaces/libsrc/cpp/CorbaTransport.cpp:170-183 | a push is the largest multiple of mode times subsize within the limit |
| `Chunking.ChunksPayload` | bulkioInterfaces/libsrc/cpp/CorbaTransport.cpp:184-212 | the sub-packets carry the packet's payload, nothing lost, repeated or moved |
| `Chunking.ChunkAt` | bulkioInterfaces/libsrc/cpp/CorbaTransport.cpp:184-212 | the k-th sub-packet starts k push sizes in, has exactly that size unless it is the last, alone carries the end-of-stream when it is the last, and a valid time is T plus the samples already sent times xdelta |
| `Chunking.ChunkFigures` | bulkioInterfaces/libsrc/cpp/CorbaTransport.cpp:184-212 | the k-th sub-packet in numbers: the slice from k push sizes on; its seconds are T's plus the samples sent before times xdelta, with T's other fields, if T is valid, and T otherwise |
| `Chunking.StuckWithoutRoom` | bulkioInterfaces/libsrc/cpp/CorbaTransport.cpp:183-212 | the loop makes no progress iff a frame does not fit the limit |
| `Transports.Transport.SendPacket` | bulkioInterfaces/libsrc/cpp/CorbaTransport.cpp:163-212 | the do/while loop terminates and does to the connection what pushing those sub-packets up to the first failure does |
| `Transports.Transport.PushSri` | bulkioInterfaces/libsrc/cpp/BulkioTransport.cpp:61-73 | an SRI is pushed unless its version is on record; the version is recorded even if the push then fails |
| `Transports.Transport.PushPacket` | bulkioInterfaces/libsrc/cpp/BulkioTransport.cpp:76-86 | the packet goes out, and the stream ID is forgotten once its end-of-stream was delivered |
| `Wire.SendFigures` | bulkioInterfaces/libsrc/cpp/bulkio_out_port.cpp:196-218 | whatever fails, due are the SRI, unless the version is on record, and the packet's pushes; they get through up to the first failure; the version is on record from then on, unless an end-of-stream got through; the connection dies iff the SRI failed or a push did so fatally |
| `Delivery.DeliverFigures` | bulkioInterfaces/libsrc/cpp/bulkio_out_port.cpp:196-218 | the same for a packet of an output port: its data, time, end and stream ID cut to the connection's limit, nothing at a dead connection or one it is not routed to |
| `Transports.Transport.Disconnect` | bulkioInterfaces/libsrc/cpp/BulkioTransport.cpp:47-58 | one end-of-stream for each recorded stream ID, in some order; time-outs are passed over, a fatal failure abandons the rest |
| `Wire.DisconnectFigures` | bulkioInterfaces/libsrc/cpp/BulkioTransport.cpp:47-58 | it makes one call for each ID until one fails fatally, that one included, and forgets all versions if none does and none otherwise |
| `Bracketing.StepBracketed` | bulkioInterfaces/libsrc/cpp/bulkio_out_port.cpp:180-224 | a step leaves the SRI-first, end-last grouping of a stream ID iff it delivers a packet for a version whose SRI was lost; such versions come only from failed SRI pushes |
| `Bracketing.RunBracketed` | bulkioInterfaces/libsrc/cpp/bulkio_out_port.cpp:76-224 | in every run in which no pushSRI loses the stream's SRI, whatever else fails, the trace of the ID on the connection is properly grouped, and while the connection lives the version map names the open groups |
| `Bracketing.RunBracketedExactly` | bulkioInterfaces/libsrc/cpp/bulkio_out_port.cpp:76-224 | and exactly: a run leaves the grouping of a stream ID if and only if some packet of it is delivered for a version whose SRI was lost |
| `Bracketing.LostSriUnbrackets` | bulkioInterfaces/libsrc/cpp/bulkio_out_port.cpp:112-118 | the condition is needed: a pushSRI that fails leaves the version recorded, and the next packet goes out without an SRI |
| `Bracketing.DisconnectCloses` | bulkioInterfaces/libsrc/cpp/BulkioTransport.cpp:47-58 | disconnect ends each open group with exactly one end-of-stream unless a call fails, and sends nothing for closed ones |
| `Bracketing.PhantomDisconnect` | bulkioInterfaces/libsrc/cpp/BulkioTransport.cpp:47-58 | whatever order disconnect goes through, it sends an end-of-stream outside a group if and only if a version is on record whose SRI was lost and that end-of-stream comes through |
| `SriInForce.StepReceived` | bulkioInterfaces/libsrc/cpp/bulkio_out_port.cpp:196-218 | whatever calls fail, what gets through of a packet is its beginning, and is read with the last SRI received if the packet's version is on record, otherwise with the packet's own |
| `SriInForce.StepInForce` | bulkioInterfaces/libsrc/cpp/bulkio_out_port.cpp:196-218 | it is read with the packet's SRI if and only if nothing got through, or the version on record stands for that SRI |
| `SriInForce.RunInForceExactly` | bulkioInterfaces/libsrc/cpp/bulkio_out_port.cpp:76-224 | in every run, with any failures, routing and re-use of the ID, the receiver reads every sample with its packet's SRI if and only if no step sends on a version that stands for another one |
| `SriInForce.InForceLost` | bulkioInterfaces/libsrc/cpp/bulkio_out_port.cpp:196-218 | a stream's version stops standing for its SRI only where a push of that SRI fails and it was not the last one received |
| `SriInForce.LostEosMisleads` | bulkioInterfaces/libsrc/cpp/bulkio_out_port.cpp:196-218 | the failing run: an end-of-stream is lost, and the first sample of the next stream of the ID is read with the SRI of the one before |
| `SriInForce.PacketReceived` | bulkioInterfaces/libsrc/cpp/bulkio_out_port.cpp:204-218 | while the version on record stands for the stream's SRI, what gets through arrives with it; when no call fails that is the whole packet, and the SRI is on record unless the stream ended |
| `SriInForce.PacketElsewhere` | bulkioInterfaces/libsrc/cpp/bulkio_out_port.cpp:204-218 | whatever fails, nothing changes for any other stream ID |
| `Delivery.MoveBalanced` | bulkioInterfaces/libsrc/cpp/bulkio_out_stream.cpp:112-184 | one operation: samples received and buffered, each with its SRI, grow by what is written with the SRI in force, because metadata changes only with the buffer empty |
| `Delivery.SriInForceWhenWritten` | bulkioInterfaces/libsrc/cpp/bulkio_out_stream.cpp:67-184 | in every error-free run, among whatever other streams do, each sample is received once, in order, with the SRI in force when it was written; Failures.StreamInForce is the counterpart under failures |
| `Delivery.NewSriReceived` | bulkioInterfaces/libsrc/cpp/bulkio_out_stream.cpp:147-158 | after setting an SRI and writing and flushing, the receiver has read what was buffered with the old SRI and what was written with the new one |
| `Delivery.CloseReceived` | bulkioInterfaces/libsrc/cpp/bulkio_out_stream.cpp:405-413 | closing delivers the rest and leaves the connection fit for the next stream of the same ID |
| `Failures.StreamInForce` | bulkioInterfaces/libsrc/cpp/bulkio_out_port.cpp:180-224 | in every run of a stream used through its handle, among other streams and whatever fails, every sample that gets through is read with the SRI in force when it was sent: a failed push of an SRI kills the connection first |
| `Failures.CloseInStep` | bulkioInterfaces/libsrc/cpp/BulkioTransport.cpp:76-86 | after a close the same holds for every stream that may take the ID next if and only if the connection is dead or has forgotten the ID |
| `Buffering.DoBufferKeeps` | bulkioInterfaces/libsrc/cpp/bulkio_out_stream.cpp:432-455 | the recursion terminates; sent and buffered scalars are those buffered and written, in order; every packet it sends was filled to exactly the buffer size |
| `Buffering.OpKeeps` | bulkioInterfaces/libsrc/cpp/bulkio_out_stream.cpp:361-455 | every operation conserves the scalars, never leaves a full buffer, sends under the SRI and version it finds, and changes those only with the buffer empty |
| `Buffering.RunKeeps` | bulkioInterfaces/libsrc/cpp/bulkio_out_stream.cpp:361-455 | in every run packets sent followed by the buffer are exactly the concatenation of the writes |
| `Buffering.RunTimed` | bulkioInterfaces/libsrc/cpp/bulkio_out_stream.cpp:432-455 | in every run each packet has the time of its first scalar: the time of its write plus the scalar's index there times xdelta |
| `Emissions.WriteFigures` | bulkioInterfaces/libsrc/cpp/bulkio_out_stream.cpp:361-370 | a write goes out as it is iff the stream is unbuffered or holds nothing and the write fills the buffer; otherwise packets of exactly the buffer size go out and less than that stays |
| `Emissions.PacketFigures` | bulkioInterfaces/libsrc/cpp/bulkio_out_stream.cpp:432-455 | the k-th packet a buffered write sends, in numbers: full, under the stream's SRI and version; begun before, it has the buffer's time, otherwise the seconds of the write plus the scalars of it sent before times xdelta, and its other fields |
| `Emissions.LeftFigures` | bulkioInterfaces/libsrc/cpp/bulkio_out_stream.cpp:432-455 | how much stays in the buffer, and its time in the same numbers |
| `Emissions.ChangeFigures` | bulkioInterfaces/libsrc/cpp/bulkio_out_stream.cpp:377-403 | flush, size and SRI change in numbers: what goes out and when, and every field afterwards |
| `Emissions.CloseFigures` | bulkioInterfaces/libsrc/cpp/bulkio_out_stream.cpp:404-412 | the one packet a close sends, with the fields of an unset time if nothing was buffered |
| `Buffering.DoBufferOnTime` | bulkioInterfaces/libsrc/cpp/bulkio_out_stream.cpp:432-455 | buffering a write of whole samples to a complex stream: packets sent and buffer left have the time of their first sample if and only if the write fits the room left or xdelta is 0 |
| `Buffering.DoBufferSplit` | bulkioInterfaces/libsrc/cpp/bulkio_out_stream.cpp:452-453 | a write that is split is stamped wrongly whenever xdelta is not 0 |
| `Buffering.OpOnTime` | bulkioInterfaces/libsrc/cpp/bulkio_out_stream.cpp:361-455 | the same for every operation, direct writes included |
| `Buffering.RunTimedSamples` | bulkioInterfaces/libsrc/cpp/bulkio_out_stream.cpp:361-455 | in every run of whole samples each packet has the time of its first sample if and only if no buffered write to the complex stream is split, but for those at xdelta 0 |
| `OutStreams.BufferedOutputStream.Fill` | bulkioInterfaces/libsrc/cpp/bulkio_out_stream.cpp:434-444 | the array is filled from the write up to the buffer size, the rest of the stream unchanged |
| `OutStreams.BufferedOutputStream.DoBuffer` | bulkioInterfaces/libsrc/cpp/bulkio_out_stream.cpp:432-455 | the recursive method over the array does what the specification says, and every connection takes exactly the packets it sends |
| `OutStreams.BufferedOutputStream.PushBuffer` | bulkioInterfaces/libsrc/cpp/bulkio_out_stream.cpp:421-430 | what is buffered goes out at its time, and a fresh buffer of the current size replaces it |
| `OutStreams.BufferedOutputStream.Write` | bulkioInterfaces/libsrc/cpp/bulkio_out_stream.cpp:361-370 | a write goes straight out iff the stream is unbuffered or holds nothing and the write fills the buffer; one that leaves room is kept whole and sends nothing; every connection takes what is sent, and the port's streams stay what they were |
| `OutStreams.BufferedOutputStream.SetBufferSize` | bulkioInterfaces/libsrc/cpp/bulkio_out_stream.cpp:377-393 | the size is the new one; what is buffered goes out, under its time and SRI, iff it fills the new size, and otherwise stays |
| `OutStreams.BufferedOutputStream.Flush` | bulkioInterfaces/libsrc/cpp/bulkio_out_stream.cpp:395-403 | what is buffered is sent at its time, if anything is, and nothing else changes |
| `OutStreams.BufferedOutputStream.SetMetadata` | bulkioInterfaces/libsrc/cpp/bulkio_out_stream.cpp:67-184 | the SRI is the new one; iff it differs the version goes up by one, and what was buffered has gone out before, under the old SRI and version |
| `OutStreams.BufferedOutputStream.SetSri` | bulkioInterfaces/libsrc/cpp/bulkio_out_stream.cpp:147-158 | the SRI is the new one but for its stream ID; iff that differs the version goes up by one, and what was buffered has gone out before, under the old SRI and version; otherwise nothing happens |
| `OutStreams.BufferedOutputStream.Close` | bulkioInterfaces/libsrc/cpp/bulkio_out_stream.cpp:404-412 | one end-of-stream goes out, with what is buffered and its time, or empty and with no time set, and the port forgets this stream and no other |
| `OutStreams.BufferedOutputStream.Apply` | bulkioInterfaces/libsrc/cpp/bulkio_out_stream.cpp:67-184 | any mix of these operations: the stream stays valid and attached, its state moves as specified, and every connection takes what the operation sends |
| `OutStreams.BufferedOutputStream.WriteMultiple` | bulkioInterfaces/libsrc/cpp/bulkio_out_stream.cpp:557-582 | an empty list is an error; for timestamps that fit the data one write for each stretch between them, with its time, and every connection takes what those writes send |
| `TimedWrites.InsideExactly` | bulkioInterfaces/libsrc/cpp/bulkio_out_stream.cpp:557-582 | every slice the loop takes lies in the data if and only if the timestamps fit: up to the first one at the end of the data or beyond the offsets do not decrease, and on a complex stream none is beyond |
| `TimedWrites.ComplexOverrun` | bulkioInterfaces/libsrc/cpp/bulkio_out_stream.cpp:570-577 | a list that does not: sample 3 of four complex scalars gives a slice that ends at six, while on a real stream the same list is cut |
| `TimedWrites.CutWritesAll` | bulkioInterfaces/libsrc/cpp/bulkio_out_stream.cpp:557-582 | the writes of a list that fits are the whole data, in order, nothing twice |
| `OutStreams.CutPoint` | bulkioInterfaces/libsrc/cpp/bulkio_out_stream.cpp:570-577 | where a write ends: cut to the data before it is doubled; for timestamps that fit, neither before the write begins nor beyond the data, and the rest fits again |
| `TimedWrites.StampsCut` | bulkioInterfaces/libsrc/cpp/bulkio_out_stream.cpp:557-582 | written out with the timestamps of its stretches, data is never cut outside itself, whatever the stretches |
| `TimedWrites.StampsRoundTrip` | bulkioInterfaces/libsrc/cpp/bulkio_out_stream.cpp:557-582 | those timestamps cut the data back into the stretches, each with its own time, if and only if all of them but the last are of whole samples |
| `BlockCopies.BlockRoundTrip` | bulkioInterfaces/libsrc/cpp/bulkio_out_stream.cpp:557-582 | reading any block and writing it with its timestamps stays inside it, and makes one write of each packet's stretch if and only if all but the last are of whole samples; an empty block writes nothing |
| `BlockCopies.HalfJoinsNext` | bulkioInterfaces/libsrc/cpp/bulkio_out_stream.cpp:557-582 | a block that is cut differently: the scalar of a half-sample packet is written with the next packet's, under that one's time |
| `Filters.IsStreamRoutedToConnection` | bulkioInterfaces/libsrc/cpp/bulkio_out_port.cpp:141-158 | a stream is routed to a connection iff the table does not mention the port or has the row (port, connection, stream) |
| `OutStreams.OutPort.GetStream` | bulkioInterfaces/libsrc/cpp/bulkio_out_port.cpp:162-176 | the stream of an ID, or a new one of this port with the default SRI and nothing buffered; the others stay |
| `OutStreams.OutPort.SendTo` | bulkioInterfaces/libsrc/cpp/bulkio_out_port.cpp:196-216 | what one connection makes of a packet: skipped if dead or not routed, SRI before packet, dead after a fatal failure only |
| `OutStreams.OutPort.SendPacket` | bulkioInterfaces/libsrc/cpp/bulkio_out_port.cpp:180-224 | every connection takes the packet with the stream's SRI and version, and an ended stream is forgotten |
| `OutStreams.OutPort.PushSri` | bulkioInterfaces/libsrc/cpp/bulkio_out_port.cpp:76-122 | the SRI is the stream's from now on, every routed connection alive is told, what an unchanged stream has buffered stays, and so do the port's other streams |
| `OutStreams.OutPort.CreateStream` | bulkioInterfaces/libsrc/cpp/bulkio_out_port.cpp:322-335 | the stream of the SRI's ID, new and empty or updated, filed at this port beside the others |
| `OutStreams.OutPort.ConnectPort` | redhawk/src/base/framework/UsesPort.cpp:86-125 | a new connection ID is added at the end, one in use is refused |
| `OutStreams.OutPort.DisconnectPort` | redhawk/src/base/framework/UsesPort.cpp:127-169 | the connection's streams are ended, it goes whether or not that worked, and no other connection is touched |
| `Conservation.OpArrives` | bulkioInterfaces/libsrc/cpp/bulkio_out_stream.cpp:361-455 | what an operation sends on a connection that takes everything, with what it leaves buffered, is what was buffered and written; no end-of-stream is sent |
| `Conservation.JoinedAdvance` | bulkioInterfaces/libsrc/cpp/bulkio_in_stream.cpp:508-526 | the cursor passes exactly what leaves the remaining segments |
| `Conservation.JoinedAdd` | bulkioInterfaces/libsrc/cpp/bulkio_in_stream.cpp:647-692 | a packet adds its payload to what is to be read, whatever segment it joins |
| `EndToEnd.TakeMessage` | bulkioInterfaces/libsrc/cpp/bulkio_in_port.cpp:173-390 | an arriving message adds exactly its payload for the stream to what the reader has in front of it, unless the packet has to wait |
| `EndToEnd.OpenSender` | bulkioInterfaces/libsrc/cpp/bulkio_out_port.cpp:76-122 | the base case at the sender: a new port, one connection and one pushSRI give a stream that meets every requirement of the pipeline |
| `EndToEnd.OpenReceiver` | bulkioInterfaces/libsrc/cpp/bulkio_in_port.cpp:173-227 | the base case at the reader: a new port that has received an SRI holds a stream for it that meets them too, with nothing to read |
| `EndToEnd.Connect` | bulkioInterfaces/libsrc/cpp/bulkio_in_port.cpp:173-227 | a pipeline can be built from nothing by these calls alone, and starts with nothing written and nothing passed |
| `EndToEnd.Pipeline.Operate` | bulkioInterfaces/libsrc/cpp/bulkio_out_stream.cpp:67-184 | conservation after any operation of the output stream, with the reader's side left as it was |
| `EndToEnd.Pipeline.Write` | bulkioInterfaces/libsrc/cpp/bulkio_out_stream.cpp:361-370 | conservation: passed, then held and queued at the reader, then on the way, then in the sender's buffer, is what was written, after a write |
| `EndToEnd.Pipeline.SetBufferSize` | bulkioInterfaces/libsrc/cpp/bulkio_out_stream.cpp:377-393 | the same after a change of buffer size |
| `EndToEnd.Pipeline.Flush` | bulkioInterfaces/libsrc/cpp/bulkio_out_stream.cpp:395-403 | the same after a flush |
| `EndToEnd.Pipeline.SetSri` | bulkioInterfaces/libsrc/cpp/bulkio_out_stream.cpp:147-158 | the same after a change of metadata |
| `EndToEnd.Pipeline.OperateOther` | bulkioInterfaces/libsrc/cpp/bulkio_out_port.cpp:180-224 | conservation among other traffic: any operation of another stream of the port, on the same connection or not, leaves it as it was |
| `EndToEnd.Pipeline.CloseOther` | bulkioInterfaces/libsrc/cpp/bulkio_out_stream.cpp:405-413 | the same when another stream is closed |
| `EndToEnd.Pipeline.AnnounceOther` | bulkioInterfaces/libsrc/cpp/bulkio_out_port.cpp:76-122 | the same when the SRI of another stream is pushed |
| `EndToEnd.Pipeline.Deliver` | bulkioInterfaces/libsrc/cpp/bulkio_in_port.cpp:271-390 | the same after the next message reaches the input port, which registers an SRI that is new to it or, for the stream's ID, told apart, and queues a packet it has room for with the time it was sent with |
| `EndToEnd.Pipeline.Read` | bulkioInterfaces/libsrc/cpp/bulkio_in_stream.cpp:384-443 | the same after a read or tryread; what is passed stays a prefix of what was written, and real samples read and consumed in full are the next ones written |
| `EndToEnd.Pipeline.ReadPacket` | bulkioInterfaces/libsrc/cpp/bulkio_in_stream.cpp:365-382 | the same after reading one packet |
| `EndToEnd.Pipeline.Skip` | bulkioInterfaces/libsrc/cpp/bulkio_in_stream.cpp:445-471 | the same after a skip |
| `Attachments.DetachByConnectionId` | bulkioInterfaces/libsrc/cpp/bulkio_attachable_port.cpp:738-750 | the erasing loop removes the connection's attachments and no other |
| `Attachments.UpdateAttachments` | bulkioInterfaces/libsrc/cpp/bulkio_attachable_port.cpp:950-1002 | afterwards a stream is attached to exactly the expected connections, but for those that refuse a new attachment |
| `Attachments.ConnectRight` | bulkioInterfaces/libsrc/cpp/bulkio_attachable_port.cpp:1434-1457 | a new connection keeps a stream attached exactly where the routing relation says, its ID in use or not |
| `Attachments.ThrownRight` | bulkioInterfaces/libsrc/cpp/bulkio_attachable_port.cpp:1434-1457 | a connection that could not be made leaves a stream right but for itself, and right altogether if and only if the stream had not got it yet |
| `Attachments.DisconnectRight` | bulkioInterfaces/libsrc/cpp/bulkio_attachable_port.cpp:1198-1209 | a stream that was right but for a connection is right once that goes, unless a second one of the same ID stays and the stream is routed to it |
| `Attachable.FilteredRight` | bulkioInterfaces/libsrc/cpp/bulkio_attachable_port.cpp:1586-1606 | a new table that mentions the port leaves a stream attached where it is routed, but for new attachments that are refused |
| `Attachable.UnfilteredRight` | bulkioInterfaces/libsrc/cpp/bulkio_attachable_port.cpp:1607-1612 | so does a new table that does not |
| `Attachable.OutAttachablePort.ConnectPort` | bulkioInterfaces/libsrc/cpp/bulkio_attachable_port.cpp:1416-1474 | it throws if and only if an attachment it needs is refused; then nothing but that connection's attachments is wrong, and they are if and only if one was made before; otherwise the attachment table stays the routing relation, the ledger true, complete when no push fails, and newly listed or told are only connections a stream is attached to |
| `Attachable.OutAttachablePort.DisconnectPort` | bulkioInterfaces/libsrc/cpp/bulkio_attachable_port.cpp:1477-1514 | the connection goes from every table; what was right but for it is right again, unless a second one of its ID stays that a stream is routed to |
| `Attachable.OutAttachablePort.AddStream` | bulkioInterfaces/libsrc/cpp/bulkio_attachable_port.cpp:1974-2073 | a new stream is attached exactly where it is routed; it is not added if and only if its ID is in use or one of those attachments is refused, and both invariants are kept in every case |
| `Attachable.OutAttachablePort.UpdateStream` | bulkioInterfaces/libsrc/cpp/bulkio_attachable_port.cpp:1950-1964 | an existing stream is attached anew where it is routed, and is gone if and only if one of those attachments is refused; all others stay |
| `Attachable.OutAttachablePort.RemoveStream` | bulkioInterfaces/libsrc/cpp/bulkio_attachable_port.cpp:2076-2086 | exactly the streams of that ID go |
| `Attachable.OutAttachablePort.MakeAttachments` | bulkioInterfaces/libsrc/cpp/bulkio_attachable_port.cpp:1993-2058 | the nested loops over connections and rows attach a new stream exactly where it is routed, duplicate rows included, up to the first refusal |
| `Attachable.OutAttachablePort.UpdateConnectionFilter` | bulkioInterfaces/libsrc/cpp/bulkio_attachable_port.cpp:1533-1615 | for any new table the attachments become the new routing relation if and only if no new one is refused; a table that mentions the port leaves routed minus refused, one that does not throws; when no push fails the SRI ledger is complete, and newly listed or told are only connections a stream is attached to |
| `Attachable.OutAttachablePort.ScanFilter` | bulkioInterfaces/libsrc/cpp/bulkio_attachable_port.cpp:1543-1584 | the scan finds for each stream the live connections its rows name, and whether the port is mentioned at all |
| `Attachable.OutAttachablePort.UpdateSriForAllConnections` | bulkioInterfaces/libsrc/cpp/bulkio_attachable_port.cpp:1618-1685 | the ledger stays true under any failures, and is complete without; nobody is listed or told anew but live connections a stream of that ID is attached to |
| `Attachable.OutAttachablePort.PushSri` | bulkioInterfaces/libsrc/cpp/bulkio_attachable_port.cpp:1714-1804 | the SRI is recorded with the entry's old time; told and listed are only routed connections, listed those that took it, and without failures all of them |
| `NicReservation.NicAllocator.AllocateCapacity` | GPP/cpp/NicAllocator.cpp:45-86 | the loop over interfaces is the search of the specification, re-allocation and exceptions included |
| `NicReservation.AllocateFigures` | GPP/cpp/NicAllocator.cpp:45-86 | the answer over the fields of the request and the interfaces: invalid iff the request is, or the first interface in order that decides has an address that cannot be read; allocated iff that interface passes all four tests (addresses equal under its mask, multicast as wished, the interface kept or asked for, neither measured nor reserved throughput above maximum*percent/100), and then on that one; refused iff there is none |
| `NicReservation.MaximumFigures` | GPP/cpp/NicAllocator.cpp:131-140 | the maximum of a device is kept once set, and is the Mbit/s of the first interface of it that was looked at times 1000000 |
| `NicReservation.NicAllocator.LookUp` | GPP/cpp/NicAllocator.cpp:131-140 | the first interface of a device to be looked at sets the device's maximum |
| `NicReservation.NicAllocator.DeallocateCapacity` | GPP/cpp/NicAllocator.cpp:220-243 | the allocation goes and its device gets its amount back; an unknown identifier is an error |
| `NicReservation.AllocateKeeps` | GPP/cpp/NicAllocator.cpp:45-86 | allocating, changing, refusing or throwing, each device's allocated throughput stays the sum over the allocations on its interfaces, and within its cap |
| `NicReservation.DeallocateKeeps` | GPP/cpp/NicAllocator.cpp:220-243 | so it does when an allocation goes, which returns exactly its share |
| `NicReservation.RunConserved` | GPP/cpp/NicAllocator.cpp:45-243 | in every run each device has given out exactly what is allocated on its interfaces, and with non-negative rates never more than maximum*percent/100 |
| `NicReservation.DeallocateUndoes` | GPP/cpp/NicAllocator.cpp:45-243 | deallocating what was just allocated under a new identifier restores every account |
| `NicReservation.SearchBooks` | GPP/cpp/NicAllocator.cpp:116-128 | a successful allocation changes the one of that identifier alone, and of the request only the interface |

## Left out

- Ledger.NoSilentLoss: marks are exact but for end-of-streams that took over a marked packet's payload, because the code drops the mark there, and capacities are positive, because a port of capacity 0 drops packets without one; Ledger.OpenStreamMarks is exact.
- Bracketing.RunBracketed: assumes that no pushSRI loses the stream's SRI, because the grouping is false without it; Bracketing.RunBracketedExactly says exactly which runs break it.
- Buffering.RunTimedSamples: complex streams are written in whole samples and their buffer holds whole samples, because a packet that starts inside a sample has no time of its own.
- Delivery.SriInForceWhenWritten: assumes a fixed filter, no failing call and metadata changed through the stream's handle, because a call that fails loses samples; which SRI is read under failures, routing and re-use of IDs is SriInForce.RunInForceExactly, and the run that goes wrong SriInForce.LostEosMisleads.
- EndToEnd.Pipeline.Deliver: assumes that the input port has room or blocks, because an overflow drops packets on purpose.
- EndToEnd.Pipeline.Valid: the stream is open; after close() the conservation is Delivery.CloseReceived at the sender and StreamBuffer at the reader.
- Attachable.OutAttachablePort.ConnectPort: an attachment that is refused is refused for the whole call, and two endpoints that share a connection ID are one to the record of what has been received.
- Attachable.OutAttachablePort.AddStream: what a refused stream has attached before is not detached by the code, and the other ends are not modelled.
- Attachable.OutAttachablePort.RemoveStream: the attachment IDs, detach() by attachment ID and a stream's own copy of its SRI are not modelled.
- NicReservation.RunConserved: the interfaces and the percentage are fixed, each interface is filed under its own non-empty name; IPv4 parsing is a parameter.
- OutStreams.OutPort.PushSri: a stream that has something buffered must keep its SRI; the flush would wait for a lock the caller holds.
- OutStreams.BufferedOutputStream.WriteMultiple: scalar data only; the complex overload differs in how the buffer is counted.
- disable() and enable() of input streams, discardPacketsForStream, and getPacket mixed with the stream API.
- The unbuffered input and output streams of XML and file ports, bit packing, and sharing of buffers between blocks: buffers are sequences.
- The queues' locks and condition variables: every locked region is one step, a push that has to wait is a call that changes nothing, and what arrives during a blocking read counts as there before it.
- Streams waiting behind an active one of the same ID are kept as the SRIs they will be created with, not as objects.
- A remote call that fails is taken not to have been received.
- Floating-point rounding and integer widths: times and rates are exact reals, counts are unbounded.
- Time drift of blocks, statistics, callbacks, logging and object references.
- The rest of the GPP, the frontend interfaces, burst ports and code generation.
