/**
 The C side of the server: what the tracepoints, the sampling job, the GC timer
 and the snapshot command do to the object table and to the message queue.
 */
module Tracer {
  import opened Wrappers
  import opened MessagePack
  import opened Messages
  import opened Sequences
  import opened Packers
  import opened PublishProtocol
  import opened Publishing
  import opened AllocationInfo
  import opened ObjectGraph
  import opened DumpStream
  import opened EventPacker
  import opened ClientView

  /** Timestamps are eight bytes. */
  ghost predicate Stamps(clock: nat -> bytes) {
    forall i :: |clock(i)| == 8
  }

  predicate IsGcPhase(m: Message) {
    m.GcStart? || m.GcEndMark? || m.GcEndSweep?
  }

  /** Records that the C types can hold, at least one, and a clock. */
  ghost predicate Dumpable(records: seq<Record>, clock: nat -> bytes) {
    records != [] && |records| < TWO_64 && All(FitsRecord, records) && Stamps(clock)
  }

  lemma SentOther(s: State, items: seq<Item>, batchSize: nat, lastId: nat, m: Message)
    requires s.live && Recorded(s.stream, items, batchSize, lastId) && !m.ObjectSpaceDump?
    ensures Recorded(Step(s, Send(m)).stream, items + [Other(m)], batchSize, lastId)
  {
    RecordedSnoc(s.stream, items, batchSize, lastId, Other(m));
  }

  lemma SentDump(s: State, after: State, items: seq<Item>, batchSize: nat, lastId: nat, records: seq<Record>,
                 clock: nat -> bytes)
    requires s.live && Recorded(s.stream, items, batchSize, lastId)
    requires after == SendEach(s, DumpMessages(lastId + 1, records, batchSize, clock))
    ensures after.live && Recorded(after.stream, items + [Dump(records, clock)], batchSize, lastId + 1)
  {
    SendAllIsEach(s, DumpMessages(lastId + 1, records, batchSize, clock));
    RecordedSnoc(s.stream, items, batchSize, lastId, Dump(records, clock));
  }

  datatype HashResult = NoServer | NotImplemented | Queued

  const BUF_SIZE: nat := 2048

  /** What the VM says about one frame of the stack. */
  datatype RawFrame = RawFrame(
    methodName: Text, fullLabel: bytes, absolutePath: Text, path: bytes, firstLine: nat, singleton: bool, threadId: nat)

  /** A frame without an absolute path is filed under its path. */
  function FrameOf(r: RawFrame): Frame {
    Frame(r.methodName, Some(r.fullLabel), Some(if r.absolutePath.Some? then r.absolutePath.value else r.path),
          r.firstLine, r.singleton, r.threadId)
  }

  /** A frame says what the VM said, and the absolute path is its file if there is one. */
  predicate FrameShows(f: Frame, r: RawFrame) {
    && f.methodName == r.methodName && f.fullLabel == Some(r.fullLabel)
    && f.file == (match r.absolutePath case Some(p) => Some(p) case None => Some(r.path))
    && f.line == r.firstLine && f.singleton == r.singleton && f.threadId == r.threadId
  }

  predicate FramesShow(fs: seq<Frame>, raw: seq<RawFrame>) {
    |fs| == |raw| && forall i | 0 <= i < |raw| :: FrameShows(fs[i], raw[i])
  }

  lemma FramesShown(raw: seq<RawFrame>)
    ensures FramesShow(MapSeq(FrameOf, raw), raw)
  {
    forall i | 0 <= i < |raw| ensures FrameShows(MapSeq(FrameOf, raw)[i], raw[i]) {
      assert MapSeq(FrameOf, raw)[i] == FrameOf(raw[i]);
    }
  }

  /** A client that reads the bytes of a sample finds all its frames. */
  ghost predicate SampleArrives(b: bytes, ts: bytes, raw: seq<RawFrame>) {
    exists fs :: Receive(b) == Some((CpuSample(ts, fs), [])) && FramesShow(fs, raw)
  }

  lemma SampleReceived(ts: bytes, raw: seq<RawFrame>)
    requires Fits(CpuSample(ts, MapSeq(FrameOf, raw)))
    ensures SampleArrives(Wire(CpuSample(ts, MapSeq(FrameOf, raw))), ts, raw)
  {
    var m := CpuSample(ts, MapSeq(FrameOf, raw));
    MessageRoundTrip(m, []);
    assert Wire(m) + [] == Wire(m);
    FramesShown(raw);
  }

  /** The loop of the sampling job. */
  method CollectFrames(raw: seq<RawFrame>) returns (frames: array<Frame>)
    ensures fresh(frames) && frames[..] == MapSeq(FrameOf, raw)
    ensures FramesShow(frames[..], raw)
  {
    frames := new Frame[|raw|](_ => Frame(None, None, None, 0, false, 0));
    for i := 0 to |raw|
      invariant frames[..i] == MapSeq(FrameOf, raw[..i])
    {
      var file := raw[i].absolutePath;
      if file.None? {
        file := Some(raw[i].path);
      }
      frames[i] := Frame(raw[i].methodName, Some(raw[i].fullLabel), file, raw[i].firstLine, raw[i].singleton,
                         raw[i].threadId);
      MapSnoc(FrameOf, raw[..i], raw[i]);
      assert raw[..i + 1] == raw[..i] + [raw[i]];
    }
    assert raw[..|raw|] == raw && frames[..|raw|] == frames[..];
    FramesShown(raw);
  }

  class Tracer {
    const publisher: Publisher
    const tables: Tables
    const packer: Packer
    const arena: Arena        // the blocks of heap dumps
    const pageSize: Positive  // the macros that size pages and batches
    const batchSize: Positive
    var correlationId: nat  // static counter of heap dumps
    var logger: bool        // the C logger exists
    ghost var items: seq<Item>  // everything ever queued

    ghost predicate Valid()
      reads this, publisher, publisher.list, publisher.list.messageArray, publisher.counter
      reads tables, tables.objectTable.Values, arena
    {
      && arena.pages == {} && arena.arrays == {}
      && publisher.Valid() && tables.Valid() && logger == publisher.state.live
      && batchSize < TWO_32
      && Recorded(publisher.state.stream, items, batchSize, correlationId)
    }

    constructor (pageSize: Positive, batchSize: Positive)
      requires batchSize < TWO_32
      ensures Valid() && publisher.state == INITIAL && tables.Contents() == map[] && correlationId == 0 && items == []
      ensures this.pageSize == pageSize && this.batchSize == batchSize
      ensures fresh(publisher) && fresh(publisher.list) && fresh(publisher.list.messageArray)
      ensures fresh(publisher.counter)
      ensures fresh(tables) && fresh(packer) && fresh(arena) && tables.objectTable == map[]
    {
      this.pageSize, this.batchSize := pageSize, batchSize;
      publisher := new Publisher();
      tables := new Tables();
      packer := new Packer();
      arena := new Arena();
      correlationId, logger, items := 0, false, [];
    }

    // ----- the list and its jobs

    /** The part of start_stat_server that sets up the list and the logger, of which there may be one already. */
    method SetUp()
      requires Valid()
      modifies this`logger, publisher, publisher.list
      ensures Valid() && logger && publisher.state.live && publisher.state == Step(old(publisher.state), StartServer)
      ensures fresh(publisher.list.messageArray)
    {
      publisher.StartList();
      logger := true;
    }

    /** The first half of stop_stat_server: the queue is freed. */
    method DropList()
      requires Valid() && logger
      modifies this`logger, publisher, publisher.list
      ensures Valid() && !logger && !publisher.state.live && publisher.state == Step(old(publisher.state), StopServer)
      ensures publisher.list.messageArray == old(publisher.list.messageArray)
    {
      publisher.DestroyList();
      logger := false;
    }

    /** The second half: every info and every string under the object table is freed. */
    method DropTables()
      requires Valid()
      modifies tables
      ensures Valid() && tables.owner == map[] && tables.strings == {} && tables.Contents() == map[]
      ensures tables.objectTable == map[]
    {
      tables.FreeAll();
    }

    /** stop_stat_server: nothing of the queue and nothing under the object table stays allocated. */
    method TearDown()
      requires Valid() && logger
      modifies this`logger, publisher, publisher.list, tables
      ensures Valid() && !logger && !publisher.state.live && publisher.state == Step(old(publisher.state), StopServer)
      ensures tables.owner == map[] && tables.strings == {} && tables.Contents() == map[]
      ensures tables.objectTable == map[] && publisher.list.messageArray == old(publisher.list.messageArray)
    {
      DropList();
      DropTables();
    }

    /** The dispatch loop's timer. */
    method DispatchTimer()
      requires Valid()
      modifies publisher
      ensures Valid() && publisher.state == Step(old(publisher.state), Timer)
    {
      publisher.SendMessages();
    }

    method SetTestMode(on: bool)
      requires Valid()
      modifies publisher
      ensures Valid() && publisher.state == Step(old(publisher.state), PublishProtocol.SetTestMode(on))
    {
      publisher.SetTest(on);
    }

    /** A registered job starts, unless one is on the stack already. */
    method JobBegins(ts: bytes)
      requires Valid() && |ts| == 8 && |publisher.state.list| < TWO_32
      modifies publisher, publisher.counter
      ensures Valid() && publisher.state == Step(old(publisher.state), BeginJob)
    {
      if publisher.pending > 0 && !publisher.publishing {
        publisher.PackAndPublish(ts);
      }
    }

    /** The callback of the job on the stack returns. */
    method JobEnds()
      requires Valid()
      modifies publisher, publisher.list
      ensures Valid() && publisher.state == Step(old(publisher.state), EndJob)
      ensures publisher.list.messageArray == old(publisher.list.messageArray)
    {
      if publisher.publishing {
        publisher.ClearPublished();
      }
    }

    // ----- events

    /** Queueing leaves the object table alone. */
    method Enqueue(data: bytes, ghost m: Message)
      requires publisher.Valid() && tables.Valid() && publisher.state.live && Fits(m) && data == Wire(m)
      modifies publisher, publisher.list, publisher.list.messageArray
      ensures publisher.Valid() && tables.Valid() && publisher.state == Step(old(publisher.state), Send(m))
      ensures publisher.list.messageArray == old(publisher.list.messageArray) || fresh(publisher.list.messageArray)
    {
      publisher.SendMessage(data, m);
    }

    /** send_message for everything but heap dumps. */
    method Queue(data: bytes, ghost m: Message)
      requires Valid() && logger && Fits(m) && data == Wire(m) && !m.ObjectSpaceDump?
      modifies this`items, publisher, publisher.list, publisher.list.messageArray
      ensures Valid() && items == old(items) + [Other(m)]
      ensures publisher.state == Step(old(publisher.state), Send(m))
      ensures publisher.list.messageArray == old(publisher.list.messageArray) || fresh(publisher.list.messageArray)
    {
      SentOther(publisher.state, items, batchSize, correlationId, m);
      Enqueue(data, m);
      items := items + [Other(m)];
    }

    /** pack_event and send_message; an event type that is not implemented queues nothing. */
    method QueueEvent(buffer: Packer, e: EventPacker.Event, ts: bytes) returns (ok: bool)
      requires Valid() && logger
      requires WellTagged(e) && !e.DumpEvent? && |ts| == 8
      requires MessageOf(e, ts).Some? ==> Fits(MessageOf(e, ts).value)
      modifies buffer, this`items, publisher, publisher.list, publisher.list.messageArray
      ensures Valid() && ok == MessageOf(e, ts).Some?
      ensures publisher.state
           == if ok then Step(old(publisher.state), Send(MessageOf(e, ts).value)) else old(publisher.state)
      ensures items == if ok then old(items) + [Other(MessageOf(e, ts).value)] else old(items)
      ensures publisher.list.messageArray == old(publisher.list.messageArray) || fresh(publisher.list.messageArray)
    {
      ok := PackPlainEvent(e, buffer, ts);
      if ok {
        Queue(buffer.buf, MessageOf(e, ts).value);
      }
    }

    /** send_hash_as_event: nothing without a server, an error for a type that is not implemented. */
    method SendHashAsEvent(hash: seq<(RubyValue, RubyValue)>, eventType: int, ts: bytes) returns (r: HashResult)
      requires Valid() && WellTagged(HashEvent(eventType, hash)) && |ts| == 8
      requires var m := MessageOf(HashEvent(eventType, hash), ts); m.Some? ==> Fits(m.value)
      modifies this`items, publisher, publisher.list, publisher.list.messageArray
      ensures Valid()
      ensures r == (if !logger then NoServer
                    else if MessageOf(HashEvent(eventType, hash), ts).None? then NotImplemented else Queued)
      ensures publisher.state == if r.Queued?
                then Step(old(publisher.state), Send(MessageOf(HashEvent(eventType, hash), ts).value))
                else old(publisher.state)
      ensures items == if r.Queued? then old(items) + [Other(MessageOf(HashEvent(eventType, hash), ts).value)]
                       else old(items)
      ensures publisher.list.messageArray == old(publisher.list.messageArray) || fresh(publisher.list.messageArray)
      ensures r.Queued? && eventType in {GC_STATS, HANDSHAKE} ==>
                && publisher.list.messages != []
                && HashArrives(publisher.list.messages[|publisher.list.messages| - 1], ts,
                               if eventType == GC_STATS then GcStats else Handshake, hash)
    {
      ghost var s := publisher.state;
      if !logger {
        return NoServer;
      }
      var buffer := new Packer();
      var ok := QueueEvent(buffer, HashEvent(eventType, hash), ts);
      r := if ok then HashResult.Queued else NotImplemented;
      if eventType in {GC_STATS, HANDSHAKE} {
        HashQueued(s, hash, eventType, ts);
      }
    }

    /** What send_hash_as_event queues for a type that has a hash is received as that hash. */
    lemma HashQueued(s: State, hash: seq<(RubyValue, RubyValue)>, eventType: int, ts: bytes)
      requires Valid() && s.live && eventType in {GC_STATS, HANDSHAKE}
      requires publisher.state == Step(s, Send(MessageOf(HashEvent(eventType, hash), ts).value))
      ensures publisher.list.messages != []
      ensures HashArrives(publisher.list.messages[|publisher.list.messages| - 1], ts,
                          if eventType == GC_STATS then GcStats else Handshake, hash)
    {
      LastQueued(publisher, s, MessageOf(HashEvent(eventType, hash), ts).value);
      HashReceived(ts, if eventType == GC_STATS then GcStats else Handshake, hash);
    }

    /** sampling_job_handler: fills the frame array and queues it as one sample. */
    method SamplingJobHandler(raw: seq<RawFrame>, ts: bytes)
      requires Valid() && logger && |raw| <= BUF_SIZE
      requires Fits(CpuSample(ts, MapSeq(FrameOf, raw)))
      modifies this`items, publisher, publisher.list, publisher.list.messageArray
      ensures Valid() && items == old(items) + [Other(CpuSample(ts, MapSeq(FrameOf, raw)))]
      ensures publisher.state == Step(old(publisher.state), Send(CpuSample(ts, MapSeq(FrameOf, raw))))
      ensures publisher.list.messageArray == old(publisher.list.messageArray) || fresh(publisher.list.messageArray)
      ensures publisher.list.messages != []
           && SampleArrives(publisher.list.messages[|publisher.list.messages| - 1], ts, raw)
    {
      ghost var s := publisher.state;
      var frames := CollectFrames(raw);
      var buffer := new Packer();
      var _ := QueueEvent(buffer, CpuSampleEvent(frames[..]), ts);
      LastQueued(publisher, s, CpuSample(ts, MapSeq(FrameOf, raw)));
      SampleReceived(ts, raw);
    }

    /** gc_start_i, gc_end_mark_i and gc_end_sweep_i */
    method GcPhase(m: Message)
      requires Valid() && logger && IsGcPhase(m) && |m.ts| == 8
      modifies packer, this`items, publisher, publisher.list, publisher.list.messageArray
      ensures Valid() && items == old(items) + [Other(m)]
      ensures publisher.state == Step(old(publisher.state), Send(m))
      ensures publisher.list.messageArray == old(publisher.list.messageArray) || fresh(publisher.list.messageArray)
    {
      var _ := QueueEvent(packer, HeaderEvent(TypeOf(m)), m.ts);
    }

    /** The object table's part of newobj_i. */
    method Remember(obj: Obj, path: Text, line: nat, definedClass: DefinedClass, methodId: nat, gcCount: nat)
      requires Valid()
      modifies tables, tables.objectTable.Values
      ensures Valid() && tables.Contents()
           == old(tables.Contents())[obj := Allocation(path, line, ClassPathOf(definedClass), methodId, gcCount)]
      ensures forall i | i in tables.objectTable.Values :: i in old(tables.objectTable.Values) || fresh(i)
    {
      var _ := tables.NewAllocationInfo(obj, path, line, definedClass, methodId, gcCount);
    }

    /** newobj_i */
    method NewObject(obj: Obj, path: Text, line: nat, definedClass: DefinedClass, methodId: nat, gcCount: nat,
                     objectId: nat, className: Text, ts: bytes)
      requires Valid() && logger && Fits(ObjCreated(ts, objectId, className))
      modifies packer, this`items, publisher, publisher.list, publisher.list.messageArray
      modifies tables, tables.objectTable.Values
      ensures Valid() && items == old(items) + [Other(ObjCreated(ts, objectId, className))]
      ensures tables.Contents()
           == old(tables.Contents())[obj := Allocation(path, line, ClassPathOf(definedClass), methodId, gcCount)]
      ensures publisher.state == Step(old(publisher.state), Send(ObjCreated(ts, objectId, className)))
      ensures publisher.list.messageArray == old(publisher.list.messageArray) || fresh(publisher.list.messageArray)
      ensures forall i | i in tables.objectTable.Values :: i in old(tables.objectTable.Values) || fresh(i)
    {
      Remember(obj, path, line, definedClass, methodId, gcCount);
      var _ := QueueEvent(packer, ObjCreatedEvent(objectId, className), ts);
    }

    /** The object table's part of freeobj_i. */
    method Forget(obj: Obj)
      requires Valid()
      modifies tables
      ensures Valid() && tables.Contents() == old(tables.Contents()) - {obj}
      ensures tables.objectTable.Values <= old(tables.objectTable.Values)
    {
      tables.DeleteAllocationInfo(obj);
    }

    /** freeobj_i */
    method FreeObject(obj: Obj, objectId: nat, ts: bytes)
      requires Valid() && logger && Fits(ObjDestroyed(ts, objectId))
      modifies packer, this`items, publisher, publisher.list, publisher.list.messageArray, tables
      ensures Valid() && items == old(items) + [Other(ObjDestroyed(ts, objectId))]
      ensures tables.Contents() == old(tables.Contents()) - {obj}
      ensures publisher.state == Step(old(publisher.state), Send(ObjDestroyed(ts, objectId)))
      ensures publisher.list.messageArray == old(publisher.list.messageArray) || fresh(publisher.list.messageArray)
      ensures tables.objectTable.Values <= old(tables.objectTable.Values)
    {
      Forget(obj);
      var _ := QueueEvent(packer, ObjDestroyedEvent(objectId), ts);
    }

    // ----- heap dumps

    /**
     send_objectspace_dump: walks the heap, then packs and queues batch after
     batch. Message i is stamped with clock(i). Every block of the dump is freed: the
     arena is as empty as before.
     */
    method SendObjectspaceDump(heap: seq<HeapObject>, clock: nat -> bytes, ghost records: seq<Record>,
                    ghost after: State)
      requires Valid() && logger && correlationId + 1 < TWO_31
      requires records == RecordsOf(heap, tables.Contents())
      requires Dumpable(records, clock)
      requires after == SendEach(publisher.state, DumpMessages(correlationId + 1, records, batchSize, clock))
      modifies this`correlationId, this`items, publisher, publisher.list, publisher.list.messageArray, arena
      ensures Valid() && correlationId == old(correlationId) + 1 && items == old(items) + [Dump(records, clock)]
      ensures publisher.state == after
      ensures publisher.list.messageArray == old(publisher.list.messageArray) || fresh(publisher.list.messageArray)
    {
      ghost var more := items + [Dump(records, clock)];
      DumpHeap(heap, clock, records, after);
      items := more;
    }

    /** A dump adds one item to the stream. */
    method DumpHeap(heap: seq<HeapObject>, clock: nat -> bytes, ghost records: seq<Record>,
                    ghost after: State)
      requires publisher.Valid() && tables.Valid() && publisher.state.live
      requires batchSize < TWO_32 && correlationId + 1 < TWO_31
      requires arena.pages == {} && arena.arrays == {}
      requires records == RecordsOf(heap, tables.Contents())
      requires Dumpable(records, clock)
      requires after == SendEach(publisher.state, DumpMessages(correlationId + 1, records, batchSize, clock))
      requires Recorded(publisher.state.stream, items, batchSize, correlationId)
      modifies this`correlationId, publisher, publisher.list, publisher.list.messageArray, arena
      ensures publisher.Valid() && tables.Valid() && publisher.state.live && correlationId == old(correlationId) + 1
      ensures arena.pages == {} && arena.arrays == {}
      ensures publisher.state == after
      ensures Recorded(after.stream, items + [Dump(records, clock)], batchSize, correlationId)
      ensures publisher.list.messageArray == old(publisher.list.messageArray) || fresh(publisher.list.messageArray)
    {
      SentDump(publisher.state, after, items, batchSize, correlationId, records, clock);
      DumpBeside(heap, clock, records, after);
    }

    /** A dump leaves the object table alone. */
    method DumpBeside(heap: seq<HeapObject>, clock: nat -> bytes, ghost records: seq<Record>,
                    ghost after: State)
      requires publisher.Valid() && tables.Valid() && publisher.state.live
      requires batchSize < TWO_32 && correlationId + 1 < TWO_31
      requires arena.pages == {} && arena.arrays == {}
      requires records == RecordsOf(heap, tables.Contents())
      requires Dumpable(records, clock)
      requires after == SendEach(publisher.state, DumpMessages(correlationId + 1, records, batchSize, clock))
      modifies this`correlationId, publisher, publisher.list, publisher.list.messageArray, arena
      ensures publisher.Valid() && tables.Valid() && publisher.state.live && correlationId == old(correlationId) + 1
      ensures arena.pages == {} && arena.arrays == {}
      ensures publisher.state == after
      ensures publisher.list.messageArray == old(publisher.list.messageArray) || fresh(publisher.list.messageArray)
    {
      StreamHeap(heap, clock, records, after);
    }

    method StreamHeap(heap: seq<HeapObject>, clock: nat -> bytes, ghost records: seq<Record>,
                    ghost after: State)
      requires publisher.Valid() && tables.Valid() && publisher.state.live
      requires batchSize < TWO_32 && correlationId + 1 < TWO_31
      requires arena.pages == {} && arena.arrays == {}
      requires records == RecordsOf(heap, tables.Contents())
      requires Dumpable(records, clock)
      requires after == SendEach(publisher.state, DumpMessages(correlationId + 1, records, batchSize, clock))
      modifies this`correlationId, publisher, publisher.list, publisher.list.messageArray, arena
      ensures publisher.Valid() && publisher.state.live && correlationId == old(correlationId) + 1
      ensures arena.pages == {} && arena.arrays == {}
      ensures publisher.state == after
      ensures publisher.list.messageArray == old(publisher.list.messageArray) || fresh(publisher.list.messageArray)
    {
      var event := NewDumpEventBeside(heap);
      SendAndFree(event, clock, after);
    }

    /** Walking the heap leaves the queue alone. */
    method NewDumpEventBeside(heap: seq<HeapObject>) returns (event: ObjectSpaceDumpEvent)
      requires publisher.Valid() && tables.Valid() && arena.pages == {} && arena.arrays == {}
      requires RecordsOf(heap, tables.Contents()) != []
      requires All(FitsRecord, RecordsOf(heap, tables.Contents()))
      modifies this`correlationId, arena
      ensures publisher.Valid() && correlationId == old(correlationId) + 1
      ensures fresh(event) && event.Valid() && event.arena == arena && event.correlationId == correlationId
      ensures event.packedObjects == 0 && event.objectCount == |event.dump.records|
      ensures event.dump.records == RecordsOf(heap, tables.Contents())
    {
      event := NewDumpEvent(heap, arena);
    }

    method SendAndFree(event: ObjectSpaceDumpEvent, clock: nat -> bytes, ghost after: State)
      requires event.Valid() && event.packedObjects == 0
      requires publisher.Valid() && publisher.state.live
      requires batchSize < TWO_32 && event.correlationId < TWO_31 && event.objectCount < TWO_64
      requires Stamps(clock)
      requires after == SendEach(publisher.state,
                 DumpMessages(event.correlationId, event.dump.records, batchSize, clock))
      modifies event, event.arena, publisher, publisher.list, publisher.list.messageArray
      ensures event.arena.pages == {} && event.arena.arrays == {}
      ensures publisher.Valid() && publisher.state.live && publisher.state == after
      ensures publisher.list.messageArray == old(publisher.list.messageArray) || fresh(publisher.list.messageArray)
    {
      SendAllIsEach(publisher.state, DumpMessages(event.correlationId, event.dump.records, batchSize, clock));
      var buffer := new Packer();
      SendBatches(event, buffer, clock);
      Finish(event);
    }

    /** Freeing the last page leaves the queue alone. */
    method Finish(event: ObjectSpaceDumpEvent)
      requires event.Valid() && event.packedObjects == event.objectCount && publisher.Valid()
      modifies event, event.arena
      ensures event.arena.pages == {} && event.arena.arrays == {} && publisher.Valid()
    {
      event.FreeLastPage();
    }

    /** The dump and the cursor over it, under a new correlation id. */
    method NewDumpEvent(heap: seq<HeapObject>, arena: Arena) returns (event: ObjectSpaceDumpEvent)
      requires tables.Valid() && arena.pages == {} && arena.arrays == {}
      requires RecordsOf(heap, tables.Contents()) != []
      requires All(FitsRecord, RecordsOf(heap, tables.Contents()))
      modifies this`correlationId, arena
      ensures correlationId == old(correlationId) + 1
      ensures fresh(event) && event.Valid() && event.arena == arena && event.correlationId == correlationId
      ensures event.packedObjects == 0 && event.objectCount == |event.dump.records|
      ensures event.dump.records == RecordsOf(heap, tables.Contents())
    {
      var dump := GetObjectDump(heap, tables, pageSize, arena);
      correlationId := correlationId + 1;
      event := new ObjectSpaceDumpEvent(dump, tables, correlationId);
    }

    /** Queueing leaves the dump alone. */
    method SendPacked(event: ObjectSpaceDumpEvent, data: bytes, ghost m: Message)
      requires event.Valid() && publisher.Valid() && publisher.state.live && Fits(m) && data == Wire(m)
      modifies publisher, publisher.list, publisher.list.messageArray
      ensures event.Valid()
      ensures publisher.Valid() && publisher.state == Step(old(publisher.state), Send(m))
      ensures publisher.list.messageArray == old(publisher.list.messageArray) || fresh(publisher.list.messageArray)
    {
      publisher.SendMessage(data, m);
    }

    /** One round of the driver loop. */
    method SendBatch(event: ObjectSpaceDumpEvent, buffer: Packer, ts: bytes, ghost m: Message)
      requires event.Valid() && event.correlationId < TWO_31 && event.objectCount < TWO_64 && batchSize < TWO_32
      requires publisher.Valid() && publisher.state.live && Fits(m)
      requires m == NextMessage(event, ts, batchSize)
      modifies event, event.arena, buffer, publisher, publisher.list, publisher.list.messageArray
      ensures event.Valid() && event.packedObjects == old(event.packedObjects + event.BatchLength(batchSize))
      ensures event.objectCount == old(event.objectCount)
      ensures publisher.Valid() && publisher.state == Step(old(publisher.state), Send(m))
      ensures publisher.list.messageArray == old(publisher.list.messageArray) || fresh(publisher.list.messageArray)
    {
      PackDump(event, buffer, ts, batchSize, m);
      SendPacked(event, buffer.buf, m);
    }

    /** `sent` messages of a dump are queued, and the cursor stands behind their records. */
    ghost predicate Sending(event: ObjectSpaceDumpEvent, records: seq<Record>, sent: nat, before: State,
                            ms: seq<Message>)
      reads publisher, publisher.list, publisher.list.messageArray, publisher.counter
      reads event, event.dump, event.arena, event.tables
      reads event.dump.pages, set p | p in event.dump.pages :: p.data, set d | d in event.dump.slots :: d.references
    {
      && event.Valid() && event.dump.records == records
      && event.packedObjects == Offset(|records|, batchSize, sent)
      && publisher.Valid() && publisher.state.live
      && sent <= |ms| && publisher.state == SendAll(before, ms[..sent])
    }

    /** The driver loop. */
    method SendBatches(event: ObjectSpaceDumpEvent, buffer: Packer, clock: nat -> bytes)
      requires event.Valid() && event.packedObjects == 0
      requires publisher.Valid() && publisher.state.live
      requires batchSize < TWO_32 && event.correlationId < TWO_31 && event.objectCount < TWO_64
      requires Stamps(clock)
      modifies event, event.arena, buffer, publisher, publisher.list, publisher.list.messageArray
      ensures event.Valid() && event.packedObjects == event.objectCount
      ensures publisher.Valid() && publisher.state.live
      ensures publisher.state == SendAll(old(publisher.state),
                DumpMessages(event.correlationId, event.dump.records, batchSize, clock))
      ensures publisher.list.messageArray == old(publisher.list.messageArray) || fresh(publisher.list.messageArray)
    {
      var sent := 0;
      ghost var before, records := publisher.state, event.dump.records;
      ghost var ms := DumpMessages(event.correlationId, records, batchSize, clock);
      SendAllNone(before);
      while event.packedObjects < event.objectCount
        invariant Sending(event, records, sent, before, ms)
        invariant publisher.list.messageArray == old(publisher.list.messageArray)
                  || fresh(publisher.list.messageArray)
        decreases |records| - event.packedObjects
      {
        SendNth(event, buffer, clock, records, sent, before, ms);
        sent := sent + 1;
      }
      AllSent(event.correlationId, records, batchSize, clock, sent);
    }

    /** Message number `sent` of a dump. */
    method SendNth(event: ObjectSpaceDumpEvent, buffer: Packer, clock: nat -> bytes,
                   ghost records: seq<Record>, sent: nat, ghost before: State, ghost ms: seq<Message>)
      requires batchSize < TWO_32 && event.correlationId < TWO_31 && event.objectCount < TWO_64 && Stamps(clock)
      requires Sending(event, records, sent, before, ms) && event.packedObjects < event.objectCount
      requires ms == DumpMessages(event.correlationId, records, batchSize, clock)
      modifies event, event.arena, buffer, publisher, publisher.list, publisher.list.messageArray
      ensures Sending(event, records, sent + 1, before, ms) && event.packedObjects > old(event.packedObjects)
      ensures publisher.list.messageArray == old(publisher.list.messageArray) || fresh(publisher.list.messageArray)
    {
      ghost var m := ReadyToSend(event, clock, records, sent);
      SendAllNext(before, ms, sent);
      SendBatch(event, buffer, clock(sent), m);
    }

    /** The next message of the cursor is the next one of the dump. */
    lemma ReadyToSend(event: ObjectSpaceDumpEvent, clock: nat -> bytes,
                      records: seq<Record>, sent: nat) returns (m: Message)
      requires event.packedObjects < event.objectCount == |records| && event.dump.records == records
      requires All(FitsRecord, records)
      requires batchSize < TWO_32 && event.correlationId < TWO_31 && event.objectCount < TWO_64
      requires event.packedObjects == Offset(|records|, batchSize, sent) && Stamps(clock)
      ensures m == NextMessage(event, clock(sent), batchSize) && Fits(m)
      ensures sent < |DumpMessages(event.correlationId, records, batchSize, clock)|
      ensures DumpMessages(event.correlationId, records, batchSize, clock)[sent] == m
      ensures event.packedObjects + event.BatchLength(batchSize) == Offset(|records|, batchSize, sent + 1)
    {
      BatchAt(records, batchSize, sent);
      m := DumpMessages(event.correlationId, records, batchSize, clock)[sent];
      DumpMessageFits(sent, event.correlationId, records, batchSize, clock);
    }
  }

  /** Nothing was dropped or discarded, no job is half done and nothing waits. */
  predicate AllDelivered(s: State) {
    LostCount(s.history) == 0 && !s.running && s.list == []
  }

  /**
   End to end: in a server that lost nothing and has nothing left to send, a
   subscriber that decodes every published buffer finds every dump the server
   took, whole, under its own correlation id, and every message of the dump
   announces its size.
   */
  lemma DumpsFromBytes(t: Tracer, i: nat)
    requires t.Valid() && AllDelivered(t.publisher.state)
    requires i < |t.items| && t.items[i].Dump?
    ensures Subscribe(t.publisher.outbox).Some?
    ensures var ms, id := Received(Subscribe(t.publisher.outbox).value), IdOf(t.items, i, 1);
            && ms == t.publisher.state.stream && 0 < id <= t.correlationId
            && Reassemble(ms, id) == t.items[i].records && Announces(ms, id, |t.items[i].records|)
  {
    var s := t.publisher.state;
    SubscriberSeesDelivered(t.publisher);
    LengthsAdd(s.history);
    assert Delivered(s.history) + [] == Delivered(s.history);
    ClientReassembly(t.items, 1, t.batchSize, i);
    IdAtMost(t.items, i, 1);
  }

  /** No two dumps of a server share a correlation id, and none has one that was not given out yet. */
  lemma DumpIds(t: Tracer, i: nat, j: nat)
    requires t.Valid() && i < j < |t.items| && t.items[i].Dump? && t.items[j].Dump?
    ensures 0 < IdOf(t.items, i, 1) < IdOf(t.items, j, 1) <= t.correlationId
  {
    DistinctIds(t.items, 1, i, j);
    IdAtMost(t.items, j, 1);
  }

  lemma AllSent(id: nat, records: seq<Record>, batchSize: nat, clock: nat -> bytes, sent: nat)
    requires batchSize > 0 && Offset(|records|, batchSize, sent) == |records|
    requires sent <= |DumpMessages(id, records, batchSize, clock)|
    ensures DumpMessages(id, records, batchSize, clock)[..sent] == DumpMessages(id, records, batchSize, clock)
  {
    BatchAt(records, batchSize, sent);
  }

  lemma DumpMessageFits(i: nat, id: nat, records: seq<Record>, batchSize: nat, clock: nat -> bytes)
    requires 0 < batchSize < TWO_32 && id < TWO_31 && |records| < TWO_64 && All(FitsRecord, records)
    requires forall k :: |clock(k)| == 8
    requires i < |DumpMessages(id, records, batchSize, clock)|
    ensures Fits(DumpMessages(id, records, batchSize, clock)[i])
  {
    BatchWithin(records, batchSize, i);
  }

  lemma {:induction false} BatchWithin(records: seq<Record>, batchSize: nat, i: nat)
    requires batchSize > 0 && i < |Batches(records, batchSize)|
    ensures |Batches(records, batchSize)[i]| <= batchSize
    ensures forall r | r in Batches(records, batchSize)[i] :: r in records
    decreases |records|
  {
    if |records| > batchSize && i > 0 {
      BatchWithin(records[batchSize..], batchSize, i - 1);
    }
  }
}
