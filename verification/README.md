# rbkit, verified

A Dafny model of rbkit, a profiling server for Ruby programs: a C extension that
records allocations, heap dumps and cpu samples, packs them as MessagePack and
publishes them in batches, and a Ruby object that starts, stops and commands it.

The C files are modelled in their own form: static variables and structs are
fields of classes and loops are loops. The blocks with a life of their own are
tracked: pages and references arrays of a dump, allocation infos, interned
strings and the message buffer are freed only while allocated, read only through
methods that demand that they are allocated, and proved to be gone when they
should be. Blocks that one function allocates and frees again (event, sample and
frame structs, packer buffers) and the logger struct are plain values.

| module | what it models |
|---|---|
| MessagePack, Messages, Collections | the wire format, the protocol's messages, the batch that carries them, and the client's reading of all three |
| Packers, EventPacker | the `pack_*` functions of `ext/rbkit_event_packer.c` |
| MessageAggregator | the doubling buffer of `ext/rbkit_message_aggregator.c` |
| PublishProtocol, Publishing | queueing, the trigger at 400 messages, postponed publish jobs and their callback, first as a state machine and then as the code that refines it |
| AllocationInfo | the object table and the reference-counted strings under it |
| ObjectGraph, DumpStream | the paged heap dump and the cursor that sends it in batches while freeing it |
| Tracer | the C functions that feed the queue: tracepoints, GC statistics, samples, snapshots, teardown |
| ClientView | putting heap dumps together again from published bytes |
| SamplingProfiler, Lifecycle | signal handlers and timers, and the lifecycle as a state machine |
| Machine, Server | the whole server as one state machine, and the Ruby and C functions, with queue, tables and profiler under them, that refine it over whole runs |

Verify with `dafny verify dfyconfig.toml`.

## What the proofs found

Five properties one would expect of the code do not hold for all inputs. For each
there is a lemma with a concrete input and the exact condition under which the
property does hold.

- A message queued while the publish callback runs is dropped, because the job
  clears the whole list and not the part it published
  (`CallbackMessageIsDropped`, `LosslessIff`; `Fates` and `LateSendsSplit` say
  which messages). Messages still queued when the server stops are discarded as
  well, and so are those that a start finds in a list that an earlier start,
  which raised, left behind (`SecondStartForgets`); that list's buffer leaks.
- `setitimer` refuses a microsecond field of one second or more and disarms for
  zero, and the return value is not looked at: with such an interval the server
  reports profiling as enabled and samples nothing (`OneSecondNeverSamples`,
  `ArmedIff`).
- A clock type that is not a symbol, and an interval that does not fit a C int,
  raise in the middle of `start`, after the logger and the list exist and before
  the server counts as running (`StringClockType`, `WideInterval`,
  `StepKeepsInvIff`); the same exception in a later `start_cpu_profiling` command
  leaves the command without a reply (`UnansweredCommand`, `OneReplyIff`,
  `AllAnsweredIff`).
- A sampling job still pending at stop queues into a list of capacity 0, where the
  growth loop never ends (`SampleAfterStop`, `QueuesFindListIff`,
  `GrowthTerminatesIff`).
- Hash keys are written as their strings, so `:foo` and `"foo"` collide for a
  client that reads the payload into a dictionary (`SymbolAndStringCollide`,
  `HashCompleteIff`).

The trigger tests for equality with the batch size. That is enough without test
mode (`PendingPublish`); with it, a batch can fill up unnoticed
(`TestModeFillsUnnoticed`; `GuaranteeBreaksIff` says exactly when).

## Assumptions

- Page size and batch size are arbitrary positive numbers; the C macros set both
  to 1000.
- Strings contain no NUL byte and are shorter than 2^31; array and map counts are
  below 2^32; other integers fit their C types. The message counter's wrap-around
  is modelled.
- A heap walk finds at least one object (`object_count` is set only with the first
  page, `ext/rbkit_object_graph.c:15-20`), and walking plus packing one dump is
  atomic with respect to the object table.
- A sampling interval is an Integer of any size.
- Publish jobs do not nest, and registering a job succeeds.
- Over a whole run (`Server.Serve`) every input meets a world in which these ranges
  hold (`Machine.Sized`).
- Timestamps are opaque 8-byte values supplied by the caller; frame data, class
  names, heap contents and reachable objects are arbitrary inputs.

## Model

| member | source | states |
|---|---|---|
| MessagePack.DecodeEnc | ext/rbkit_event_packer.c:6-32 | decoding the bytes of any value in front of any other bytes gives the value and exactly those bytes |
| MessagePack.DecodeEncAll | ext/rbkit_message_aggregator.c:40-46 | a blind concatenation of n encodings decodes to exactly those n values, in order |
| MessagePack.EncSelfDelimiting | ext/rbkit_message_aggregator.c:40-46 | no encoding is a prefix of another, so a concatenation can be split in one way only |
| MessagePack.HeadInverse | ext/rbkit_event_packer.c:10-17 | every length or count announced in front of a string, array or map is read back, in all size classes |
| MessagePack.HeadFormats | ext/rbkit_event_packer.c:6-32 | nil, counts, lengths and integers from 0 have the tags of the public format, in the smallest format that holds them, followed by a big-endian number |
| MessagePack.NegativeFormats | ext/rbkit_event_packer.c:6-32 | negative integers are in the smallest signed format, in two's complement |
| Messages.ReadMessageBack | ext/rbkit_event_packer.c:40-260 | a client that looks up every field by its key gets the message back, line and size 0 travelling as nil |
| Messages.MessageRoundTrip | ext/rbkit_event_packer.c:275-315 | codec round trip: a message of any kind is received whole and the bytes behind it are untouched |
| Messages.MessageEncodable | ext/rbkit_event_packer.c:40-260 | with C-sized fields every message is within the limits of the format |
| Messages.MessageNumbers | docs/protocol.md:54-104 | every message carries the documented numbers: its event type under key 0, its time under key 1, and its payload under key 2 with the keys of its kind |
| Messages.RecordNumbers | ext/rbkit_event_packer.c:162-210 | a dumped object carries its fields under keys 3 to 8; line 0 and size 0 are nil on the wire and nothing else is |
| Messages.FrameNumbers | ext/rbkit_event_packer.c:233-259 | a frame carries its fields under keys 12, 13, 6, 7, 14 and 15 |
| Packers.Packer.PackString | ext/rbkit_event_packer.c:6-19 | NULL is written as nil and any other string as a length and its bytes |
| Packers.Packer.PackHeader | ext/rbkit_event_packer.c:25-32 | the two header fields every event starts with |
| Packers.Packer.PackObjCreatedEvent | ext/rbkit_event_packer.c:40-51 | hand-written counts and fields add up to the encoding of the obj_created message |
| Packers.Packer.PackObjDestroyedEvent | ext/rbkit_event_packer.c:53-61 | hand-written counts and fields add up to the encoding of the obj_destroyed message |
| Packers.Packer.PackEventHeaderOnly | ext/rbkit_event_packer.c:63-66 | a garbage collection event is a map of the header alone |
| Packers.Packer.PackValueObject | ext/rbkit_event_packer.c:68-84 | a fixnum goes out as its integer, a float as its bits, and a symbol, string or other value as a string of its name, characters or to_s |
| Packers.Packer.PackHashPairs | ext/rbkit_event_packer.c:86-94 | the iterator writes all keys and values of a hash in order |
| Packers.Packer.PackHashEvent | ext/rbkit_event_packer.c:96-106 | the announced hash size matches the pairs the iterator writes, and a client that reads the buffer finds each key and value of the hash, in order |
| Packers.HashReceived | ext/rbkit_event_packer.c:68-106 | a hash event is received with one entry for each pair: integers as those integers, floats as their bits, everything else as its string |
| Packers.Packer.PackFrame | ext/rbkit_event_packer.c:233-259 | a frame is a six-entry map |
| Packers.Packer.PackCpuSampleEvent | ext/rbkit_event_packer.c:218-260 | the announced frame count matches the frames the loop writes |
| Packers.MessageCounter.Get | ext/rbkit_event_packer.c:34-38 | numbers are given out consecutively, modulo 2^64 |
| Packers.Packer.PackEventCollectionEvent | ext/rbkit_event_packer.c:262-273 | a hand-written header followed by raw queued bytes is the encoding of one collection of the queued messages |
| EventPacker.PackPlainEvent | ext/rbkit_event_packer.c:275-315 | pack_event leaves exactly the message of the event in the buffer, and nothing for a type that is not implemented; a hash event is received as the pairs of its hash |
| EventPacker.MessageTypes | ext/rbkit_event_packer.c:275-315 | a message keeps the type number and time of its event, and exactly the types 0 to 4, 6, 8 and 9 become one |
| EventPacker.HashCompleteIff | ext/rbkit_event_packer.c:86-106 | a client that reads a received hash into a dictionary sees every entry if and only if no two keys become the same on the wire |
| EventPacker.SymbolAndStringCollide | ext/rbkit_event_packer.c:78-82 | a hash with :foo and "foo" loses an entry in such a client |
| Collections.SplicedPayload | ext/rbkit_message_aggregator.c:40-46 | the buffer of concatenated messages is the encoding of the elements of one array |
| Collections.CollectionRoundTrip | ext/rbkit_event_packer.c:262-273 | collection round trip: the published bytes decode, without remainder, to a four-entry map whose payload is exactly the queued messages in order |
| Collections.BatchNumbers | ext/rbkit_event_packer.c:262-273 | a collection is event type 7 and carries its number under key 9 |
| MessageAggregator.MessageList.New | ext/rbkit_message_aggregator.c:18-24 | a new list has 1024 bytes and no messages, and its peak use and the bytes moved count from 0 |
| MessageAggregator.MessageList.Destroy | ext/rbkit_message_aggregator.c:26-31 | the buffer is freed once; capacity 0 and no messages remain |
| MessageAggregator.MessageList.Clear | ext/rbkit_message_aggregator.c:33-36 | clearing forgets the messages and keeps the buffer, the peak use and the bytes moved so far |
| MessageAggregator.MessageList.DoubleTheCapacity | ext/rbkit_message_aggregator.c:13-16 | the contents survive a realloc to twice the size |
| MessageAggregator.MessageList.MakeRoom | ext/rbkit_message_aggregator.c:41-42 | the loop ends; capacity stays 1024 times a power of two, is below twice the use that forced it up, and all bytes ever moved are fewer than the capacity |
| MessageAggregator.MessageList.QueueMessage | ext/rbkit_message_aggregator.c:40-46 | the message lies behind the others; the peak is the most ever used, so that the capacity bound below twice the peak holds over any calls, and growing adds to the bytes moved exactly what it adds to the capacity |
| MessageAggregator.MessageList.Contents | ext/rbkit_message_aggregator.c:50-56 | reading the buffer, which must be allocated, gives the queued messages end to end |
| MessageAggregator.MessageList.GetEventCollectionMessage | ext/rbkit_message_aggregator.c:50-61 | an empty queue writes nothing and takes no number, and as the buffer is read only through Contents it is not read after being freed; otherwise the collection holds all queued messages |
| MessageAggregator.GrowthTerminatesIff | ext/rbkit_message_aggregator.c:9-16 | the growth loop can end if and only if the capacity is positive or there is nothing to copy |
| PublishProtocol.StepKeepsInv | ext/rbkit_server.c:67-98 | every step keeps the accounting: the queued stream is, in order, the published, dropped and discarded stretches followed by what is still unsent |
| PublishProtocol.Conservation | ext/rbkit_server.c:67-98 | in every run the queued stream is, in order, what was published, dropped, discarded and is still unsent; PublishProtocol.Fates says which messages are dropped or discarded |
| PublishProtocol.Fates | ext/rbkit_server.c:71-76 | in every run exactly the messages waiting at the end of a publishing job are dropped and exactly those waiting at a stop or a start are discarded, in order; waiting means sent since the last publication, job end, start or stop |
| PublishProtocol.LateSendsSplit | ext/rbkit_server.c:71-76 | in every run each message sent between packing and clearing of a job is dropped, or was discarded by a stop or start in between, or is still in the window; no other message is dropped |
| PublishProtocol.LateSendsAreDropped | ext/rbkit_server.c:71-76 | as long as no stop or start falls into a window with messages, the dropped messages, followed by those in the window of a running job, are exactly the messages sent between packing and clearing, in order |
| PublishProtocol.LosslessIff | ext/rbkit_server.c:71-76 | nothing is lost, duplicated or reordered if and only if no message is queued between packing and clearing of a job and no stop or start finds unsent messages |
| PublishProtocol.CallbackMessageIsDropped | ext/rbkit_server.c:43-53 | a message queued by the publish callback never reaches a subscriber |
| PublishProtocol.SecondStartForgets | ext/rbkit_message_aggregator.c:18-24 | a start on a list that is still there loses what is queued |
| PublishProtocol.StepKeepsGapFree | ext/rbkit_event_packer.c:34-38 | each step keeps publication i numbered i |
| PublishProtocol.Numbering | ext/rbkit_event_packer.c:34-38 | over any run the published collections are numbered 0, 1, 2, ... modulo 2^64, without gap or repeat |
| PublishProtocol.GuaranteeBreaksIff | ext/rbkit_server.c:84-98 | a step leaves a full queue without a job exactly when the 400th message arrives in test mode with no job registered or running |
| PublishProtocol.TestModeFillsUnnoticed | ext/rbkit_server.c:84-98 | start, test mode on, any 400 messages: the batch is full and no job is registered or running |
| PublishProtocol.TestModeIsSilent | ext/rbkit_server.c:84-98 | test mode that begins with no job registered or running publishes nothing until it is left, whatever happens |
| PublishProtocol.TimerDelivers | ext/rbkit_server.c:67-90 | outside test mode the timer and the job it registers deliver everything queued |
| PublishProtocol.PendingPublish | ext/rbkit_server.c:84-98 | without test mode, whenever 400 or more messages are queued a publish job is registered or running |
| PublishProtocol.StoppedPublishesNothing | ext/rbkit_server.c:67-78 | after a stop, whatever jobs are left over and whatever else happens until the next start, nothing is published, queued, numbered or lost |
| Publishing.Publisher.SendMessage | ext/rbkit_server.c:94-98 | the bytes are appended to the list, and a job is registered exactly when they are the 400th message outside test mode |
| Publishing.Publisher.SendMessages | ext/rbkit_server.c:84-90 | exactly one more job is registered, and none in test mode |
| Publishing.Publisher.PackAndPublish | ext/rbkit_server.c:67-74 | exactly one buffer goes out, carrying all queued messages under the next number; on an empty queue nothing goes out and no number is used |
| Publishing.Publisher.ClearPublished | ext/rbkit_server.c:75-77 | the whole list is emptied, so messages that came after packing are accounted as dropped |
| Publishing.Publisher.TriggerPublishCallback | ext/rbkit_server.c:67-78 | a whole job with everything its callback queues is the run of the protocol steps; a job that finds no messages, as one that fires after the list was destroyed, publishes nothing and takes no number |
| Publishing.SubscribeBack | ext/rbkit_server.c:43-46 | every published buffer is received as the batch it carries |
| Publishing.SubscriberSeesDelivered | ext/rbkit_server.c:67-78 | decoding all published buffers gives exactly the published numbers and messages of the history |
| ObjectGraph.ObjectDump.EnsureRoom | ext/rbkit_object_graph.c:11-26 | after it the last page has a free slot and no record is lost or moved |
| ObjectGraph.ObjectDump.ReachableObject | ext/rbkit_object_graph.c:43-56 | one more reference is appended to the growing array unless the object is its own class; the old array is given back |
| ObjectGraph.ObjectDump.WalkReferences | ext/rbkit_object_graph.c:71-72 | the array holds the ids of all references in walk order, and only one array is left allocated |
| ObjectGraph.ObjectDump.FillSlot | ext/rbkit_object_graph.c:62-82 | a slot describes its object, with file and line from the object table if it is known there |
| ObjectGraph.ObjectDump.DumpHeapObject | ext/rbkit_object_graph.c:58-85 | exactly one record is appended, for any page size, and the page list stays well formed |
| ObjectGraph.ObjectDump.CollectHeapObjects | ext/rbkit_object_graph.c:90-110 | there is one record for each object that passes the filter and for no other, in heap order, with its id, class and size, the ids of what it references other than its own class, and the file and line the object table has for it |
| ObjectGraph.GetObjectDump | ext/rbkit_object_graph.c:112-119 | the records show exactly the objects that pass the filter, as CollectHeapObjects says, and the dump owns every block it allocated |
| ObjectGraph.HeapShown | ext/rbkit_object_graph.c:90-110 | the specification of the walk picks exactly the objects that pass the filter, in order, and says of each its own data, its references in walk order and its table entry |
| DumpStream.ObjectSpaceDumpEvent.constructor | ext/rbkit_event.c:54-67 | the cursor starts at the first record with nothing freed |
| DumpStream.ObjectSpaceDumpEvent.PositionInPage | ext/rbkit_event_packer.c:142-150 | while objects are left the cursor is on an occupied slot, or at the end of a page that has a non-empty successor |
| DumpStream.ObjectSpaceDumpEvent.TurnPage | ext/rbkit_event_packer.c:142-147 | a used-up page is freed exactly when the cursor leaves it |
| DumpStream.ObjectSpaceDumpEvent.PackReferences | ext/rbkit_event_packer.c:176-186 | the references are written with their count and their array is freed once, after its last use |
| DumpStream.ObjectSpaceDumpEvent.PackObject | ext/rbkit_event_packer.c:162-210 | one object is a six-entry map of its record |
| DumpStream.ObjectSpaceDumpEvent.PackNext | ext/rbkit_event_packer.c:141-215 | one round packs the next record and frees exactly what is no longer needed, for any page size |
| DumpStream.ObjectSpaceDumpEvent.PackObjectSpaceDumpEvent | ext/rbkit_event_packer.c:108-216 | the message carries the next batch of records, in order, across page boundaries |
| DumpStream.ObjectSpaceDumpEvent.AtLastPage | ext/rbkit_server.c:446 | with everything packed the cursor is on the last page |
| DumpStream.ObjectSpaceDumpEvent.FreeLastPage | ext/rbkit_server.c:446-448 | the page the driver frees is the only block left |
| DumpStream.BatchesFlat | ext/rbkit_event_packer.c:131-138 | the batches of a dump concatenate to exactly the dump, whatever the batch size |
| DumpStream.BatchSizes | ext/rbkit_event_packer.c:131-138 | there are ceil(n / B) batches, every one but the last of exactly B records and the last of 1 to B |
| DumpStream.BatchAt | ext/rbkit_event_packer.c:131-141 | batch i holds the records between the offsets of i and i + 1, and there is one exactly as long as records are left |
| EventPacker.PackDump | ext/rbkit_event_packer.c:295-297 | each call replaces the buffer by the next message of the dump |
| Tracer.Tracer.NewObject | ext/rbkit_server.c:148-169 | an allocation updates the object table, queues its message and is recorded |
| Tracer.Tracer.FreeObject | ext/rbkit_server.c:172-185 | a free forgets the object, queues its message and is recorded |
| Tracer.CollectFrames | ext/rbkit_sampling_profiler.c:37-65 | frame i says what raw frame i says, filed under the absolute path if there is one and under the path otherwise |
| Tracer.Tracer.SamplingJobHandler | ext/rbkit_sampling_profiler.c:22-69 | one sampling job queues one cpu_sample message, which a client reads as one frame for each raw frame, in order, with its data |
| Tracer.SampleReceived | ext/rbkit_sampling_profiler.c:37-65 | a sample is received with one frame for each raw frame, filed under the absolute path or else the path |
| Tracer.Tracer.SendHashAsEvent | ext/rbkit_server.c:390-416 | nothing is queued without a server or for a type that is not implemented, otherwise exactly the message of the hash, which a client reads back pair by pair |
| Tracer.Tracer.SendBatches | ext/rbkit_server.c:441-444 | the driver loop ends and queues exactly the messages of the dump |
| Tracer.Tracer.SendObjectspaceDump | ext/rbkit_server.c:431-452 | for any page and batch size the queued messages are the batches of the walked heap under the next correlation id, the dump is recorded as one item, and no page or array stays allocated |
| Tracer.Tracer.TearDown | ext/rbkit_server.c:368-388 | stopping frees the list and every info and string under the object table |
| Tracer.Tracer.JobBegins | ext/rbkit_server.c:67-74 | a registered job publishes everything queued, unless a job is on the stack already |
| Tracer.Tracer.JobEnds | ext/rbkit_server.c:75-77 | the job on the stack clears the list, whatever happened since it published |
| ClientView.ClientReassembly | docs/protocol.md:74-75 | in any recorded stream of dumps and other messages, grouping by correlation id and concatenating gives each dump exactly, and each message announces its total; that the queued stream is such a stream is part of Tracer.Tracer.Valid |
| ClientView.RecordedSnoc | ext/rbkit_event.c:54-67 | queueing one more item, under the next id if it is a dump, keeps the stream a recorded one |
| Tracer.DumpIds | ext/rbkit_event.c:65 | the correlation ids of the dumps a server took are distinct, positive and at most its counter |
| Tracer.DumpsFromBytes | docs/protocol.md:89-105 | from the published bytes of a server that lost nothing a client recovers every dump that server took, and every message of a dump announces its size |
| AllocationInfo.Tables.MakeUniqueStr | ext/rbkit_allocation_info.c:10-30 | equal strings get one pointer, and its count goes up by one |
| AllocationInfo.Tables.DeleteUniqueStr | ext/rbkit_allocation_info.c:37-50 | one pointer is given up; the string is freed with the last one |
| AllocationInfo.Tables.NewAllocationInfo | ext/rbkit_allocation_info.c:52-80 | the tables refine a plain map: the object now has a copy of the reported record, also when a stale info is reused with the same strings |
| AllocationInfo.Tables.DeleteAllocationInfo | ext/rbkit_allocation_info.c:82-90 | the tables refine a plain map: the object is removed, and an unknown object changes nothing |
| AllocationInfo.ReferenceCountsExact | ext/rbkit_allocation_info.c:18-29 | each count is the number of path and class_path fields pointing to the string and at least 1; equal strings share one pointer; no field dangles |
| AllocationInfo.LookupIsCopy | ext/rbkit_allocation_info.c:64-68 | reading through the table and the shared strings gives the record of the plain map, and never freed memory |
| AllocationInfo.Tables.Trace | ext/rbkit_server.c:148-185 | after any sequence of allocations and frees the table is the plain map under the same events |
| AllocationInfo.LatestAllocation | ext/rbkit_allocation_info.c:52-90 | the plain map holds, for each object, the path, line and numbers of its latest allocation and the class path its class has cached, if the class has one and is not frozen; nothing once the object was freed |
| AllocationInfo.TraceAll | ext/rbkit_allocation_info.c:52-90 | from empty tables over any events, the info of an object holds what its latest allocation reported: a pointer into the string table with the characters of the path, one with those of the cached class path of a class that is not frozen and null for any other class, and the numbers |
| AllocationInfo.Tables.FreeInfos | ext/rbkit_server.c:375-376 | each info is freed exactly once and none is left |
| AllocationInfo.Tables.FreeStrings | ext/rbkit_server.c:377-378 | each interned string is freed exactly once and none is left |
| AllocationInfo.Tables.FreeAll | ext/rbkit_server.c:374-378 | after the teardown nothing is allocated and both tables are empty |
| SamplingProfiler.Profiler.Install | ext/rbkit_sampling_profiler.c:121-132 | at every point between the system calls an armed timer has its handler |
| SamplingProfiler.Profiler.Uninstall | ext/rbkit_sampling_profiler.c:134-137 | at every point between the system calls an armed timer has its handler, and the started clock is disarmed |
| SamplingProfiler.TimerFirstIsUnsafe | ext/rbkit_sampling_profiler.c:130-131 | arming before installing the handler would be unsafe for every interval that arms |
| Lifecycle.StepKeepsInvIff | lib/rbkit/server.rb:25-94 | a step keeps logger, list, tracepoints, profiler and running flag consistent if and only if it is not a start with profiling on a clock type that is not a symbol or with an interval that is no C int |
| Lifecycle.RunKeepsInv | lib/rbkit/server.rb:25-94 | the server runs exactly while logger and message list exist, and tracepoints are on exactly while tracing is enabled, after every run without such a start |
| Lifecycle.StringClockType | ext/rbkit_server.c:342-343 | a start with a clock type that is not a symbol leaves logger and list behind a server that does not run |
| Lifecycle.WideInterval | ext/rbkit_server.c:344 | a start with an interval of 2^31 leaves logger and list behind a server that does not run |
| Lifecycle.ArmedIff | ext/rbkit_server.c:339-355 | after every completed step a timer is armed if and only if profiling is enabled and the interval is below one second and positive |
| Lifecycle.OneSecondNeverSamples | ext/rbkit_sampling_profiler.c:107-113 | an interval of 1000000 microseconds is reported as profiling and arms nothing |
| Lifecycle.StopDisarms | lib/rbkit/server.rb:75-82 | stopping disarms the clock in use whatever clock commands came in between |
| Lifecycle.QueuesFindListIff | ext/rbkit_message_aggregator.c:40-46 | in every run without a start that raises, at every point whatever call of queue_message may come next finds a list of positive capacity, if and only if no stop leaves a sampling job pending |
| Lifecycle.SampleAfterStop | ext/rbkit_server.c:368-374 | start with profiling, a timer signal, stop: the sampling job then queues although there is no list |
| Lifecycle.OneReplyIff | lib/rbkit/server.rb:59-85 | a command gets exactly one reply if and only if it does not raise |
| Lifecycle.UnansweredCommand | lib/rbkit/server.rb:59-85 | a server started on a clock type that is not a symbol, without profiling, never answers start_cpu_profiling |
| Lifecycle.RequestReply | lib/rbkit/server.rb:59-85 | after any start, with tracepoints, timers, signals and sampling jobs in between, any command texts none of which raises get one reply each, in order: "handshake" the status that the start options and the earlier texts amount to, all others, known or not, "ok"; texts other than the nine known ones change nothing; the armed timers are those of the clock type set when profiling last went on |
| Lifecycle.AllAnsweredIff | lib/rbkit/server.rb:59-85 | over any such run there are as many replies as commands if and only if no "start_cpu_profiling" met, with profiling off, a clock type that is not a symbol or an interval that is no C int |
| Lifecycle.RequestTexts | lib/rbkit/server.rb:59-85 | each of the nine command texts stands for its own command, and no other text stands for any |
| Lifecycle.StartOutcome | lib/rbkit/server.rb:25-57 | from no server, a start leaves a running one if and only if its sockets could be bound and it does not turn on profiling with a clock type that is not a symbol or an interval that is no C int; without sockets there is no logger and no list |
| Lifecycle.StartAgain | lib/rbkit/server.rb:25-57 | a start while the server runs changes nothing |
| Lifecycle.PendingLaw | ext/rbkit_sampling_profiler.c:71-82 | in any run without a raising start a sampling job is registered if and only if an armed timer expired since the last one ran |
| Server.Server.StartStatServer | ext/rbkit_server.c:220-227 | the list and the logger come into being together |
| Server.Server.StartSamplingProfiler | ext/rbkit_server.c:339-347 | with profiling off, a symbol clock and a C int interval the handler is installed and then the clock of that name armed; with profiling on nothing happens; otherwise it raises and changes nothing |
| Server.Server.StopSamplingProfiler | ext/rbkit_server.c:349-355 | the clock that was started is disarmed and its signal then ignored; with profiling off nothing happens |
| Server.Server.StopServerParts | ext/rbkit_server.c:368-388 | tracepoints are off, the list is destroyed once, every allocation info and interned string is freed, the logger is gone, and the timer is left as it was |
| Server.Server.Start | lib/rbkit/server.rb:25-57 | refused exactly when already running or not bound, raises exactly for cpu profiling on a clock type that is not a symbol or with an interval that is no C int, and otherwise every field and part is as the lifecycle machine says and its invariant holds |
| Server.Server.Stop | lib/rbkit.rb:45-53 | from every state with the invariant: no timer is armed, no list exists, and every field is as the lifecycle machine says; a server that is not running is left alone |
| Server.Server.ProcessIncomingRequest | lib/rbkit/server.rb:59-85 | for every command string the whole server, with the queue and the record of dumps, is as the machine says, and the reply is missing exactly when the command raises |
| Server.Server.OnAllocated | ext/rbkit_server.c:148-169 | with tracepoints on, an allocation is entered in the table and queued into the existing list; with tracepoints off nothing happens |
| Server.Server.OnFreed | ext/rbkit_server.c:172-185 | with tracepoints on, a free leaves the table and is queued into the existing list; with tracepoints off nothing happens |
| Server.Server.OnGcPhased | ext/rbkit_server.c:100-131 | with tracepoints on, a collection phase is queued into the existing list; with tracepoints off nothing happens |
| Server.Server.OnGcStatsDue | ext/rbkit_server.c:401-402 | the GC timer queues its statistics exactly while there is a server, also right after a stop |
| Server.Server.OnTimerExpired | ext/rbkit_sampling_profiler.c:71-82 | every armed timer finds its own signal handled, which registers the sampling job |
| Server.Server.OnSampleDue | ext/rbkit_server.c:325-337 | a registered sampling job queues one message with all its frames, once |
| Machine.ControlRun | lib/rbkit/server.rb:25-94 | over any inputs the lifecycle part of the whole machine is a run of the lifecycle machine |
| Machine.QueueRun | ext/rbkit_server.c:67-98 | over any inputs the queue part of the whole machine is a run of the batching protocol |
| Machine.TableLaw | ext/rbkit_server.c:148-185 | after any inputs an object is in the table if and only if, since the server last stopped, the last input about it was its allocation with tracing on; its entry is what that allocation reported |
| Machine.ItemsLaw | ext/rbkit_server.c:94-185 | over any inputs there is one queued item, in order, for exactly the inputs that must queue one: traced allocations, frees and collection phases, statistics while there is a logger, registered samples and snapshot commands to a running server; each says what its input brought |
| Machine.DumpsAreSnapshots | lib/rbkit/server.rb:68-70 | every dump answers a snapshot command to a running server and shows the heap and the object table at that moment |
| Machine.AcceptableAt | ext/rbkit_message_aggregator.c:40-46 | in a run without a raising start and without a sampling job left behind, every sampling job meets a list |
| Server.Serve | lib/rbkit/server.rb:25-94 | a whole run from the start of the process, over commands, tracepoints, timers, signals and publish jobs in any order: the real queue, tables, profiler and replies end up as the machine says, so every call of queue_message found its list |
| Server.ServedDumps | docs/protocol.md:74-75 | end to end over such a run: if nothing was queued inside a job and nothing was discarded by a stop, a subscriber that decodes the published bytes recovers every snapshot, whole, with its size announced; each is the answer to a snapshot command and shows the heap and the object table at that moment |

## Left out

- ZeroMQ sockets, ports and polling: publishing and replying append to a sequence, and whether a bind succeeds is an input.
- The Ruby VM (tracepoint internals, frame collection, class names, garbage collection): its answers are inputs.
- The msgpack library and `st_table`: the public format and finite maps keyed by string content stand in for them; the `raw` string format of msgpack versions before 1 is not modelled.
- Integer overflow of `size_t`, `int` and `unsigned long` other than the message counter's.
- Tracer.Tracer.SendHashAsEvent: event types that make the C code read the hash event as another struct (0, 1, 5, 7 and 9) are outside its contract, because what such a cast reads is undefined.
- Server.Server.OnSampleDue: demands a list for a registered job, because on a destroyed list the call of queue_message does not return; Lifecycle.QueuesFindListIff says exactly which runs meet the demand and Server.Serve discharges it for all of those.
- Publishing.Publisher.TriggerPublishCallback: its callback queues messages and fires the timer; for a job with arbitrary inputs between its halves, a stop included, see Server.Serve.
- The test helper `get_queued_messages`, which packs and clears outside a publish job.
- The tracepoints after a start that raised with tracing on: the next start replaces them by new ones while the old ones stay enabled; the lifecycle machine has one flag for both.
- Starting the same `Server` object again after `stop`, and `start_cpu_profiling` with a mode other than sampling, which the source marks as unfinished.
- Process name, directory, pid and versions in the handshake: the status carries the fields that commands change.
- `Rbkit::RbkitGC`, the enum-to-hash tables, build scripts and experiments: renaming and constants.
