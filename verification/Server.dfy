/**
 The server with all its parts: the Ruby methods, the C functions they call, the
 queue, the object table and the profiler, proved against the machines of the
 modules Lifecycle and Machine.
 */
module Server {
  import opened Wrappers
  import opened MessagePack
  import opened Messages
  import opened ObjectGraph
  import opened Packers
  import opened DumpStream
  import opened ClientView
  import opened Publishing
  import opened SamplingProfiler
  import opened Lifecycle
  import opened Tracer
  import opened Machine
  import P = PublishProtocol

  datatype Outcome = Running | NotStarted | RaisedError

  class Server {
    // Rbkit.@server and its instance variables
    var created: bool
    var running: bool
    var clockType: ClockName
    var mode: Mode
    var interval: int
    var gcStats: bool
    // the C logger
    var enabled: bool
    var sampling: bool
    // the VM and the reply socket
    var tracepoints: bool
    var samplePending: bool
    var replies: seq<Reply>
    const tracer: Tracer
    const profiler: Profiler

    ghost function State(): Control
      reads this, tracer, tracer.publisher, profiler
    {
      Control(created, running, clockType, mode, interval, gcStats, tracer.logger, enabled, sampling,
              tracepoints, tracer.publisher.state.live, profiler.clockType, profiler.os, samplePending, replies)
    }

    /** The state of everything. */
    ghost function Now(): World
      reads this, tracer, tracer.publisher, profiler, tracer.tables`contents
    {
      World(tracer.batchSize, State(), tracer.publisher.state, tracer.tables.Contents(), tracer.items)
    }

    ghost predicate Valid()
      reads this, profiler
      reads tracer, tracer.publisher, tracer.publisher.list, tracer.publisher.list.messageArray
      reads tracer.publisher.counter
      reads tracer.tables, tracer.tables.objectTable.Values, tracer.arena
    {
      tracer.Valid() && profiler.Valid() && Inv(State())
    }

    constructor (pageSize: Positive, batchSize: Positive)
      requires batchSize < TWO_32
      ensures Valid() && Now() == NewWorld(batchSize)
      ensures fresh(tracer) && fresh(profiler) && fresh(tracer.publisher) && fresh(tracer.publisher.list)
      ensures fresh(tracer.publisher.list.messageArray) && fresh(tracer.publisher.counter)
      ensures fresh(tracer.tables) && fresh(tracer.packer) && fresh(tracer.arena) && tracer.tables.objectTable == map[]
    {
      created, running, clockType, mode, interval, gcStats := false, false, Symbol("cpu"), Sampling, 1000, false;
      enabled, sampling, tracepoints, samplePending, replies := false, false, false, false, [];
      tracer := new Tracer(pageSize, batchSize);
      profiler := new Profiler();
    }

    // ----- C functions

    /** The list and the logger come into being together. */
    method StartStatServer()
      requires tracer.Valid()
      modifies tracer`logger, tracer.publisher, tracer.publisher.list
      ensures tracer.Valid() && State() == old(State()).(listLive := true, logger := true)
      ensures tracer.publisher.state == P.Step(old(tracer.publisher.state), P.StartServer)
      ensures fresh(tracer.publisher.list.messageArray)
    {
      tracer.SetUp();
    }

    method StartStatTracing()
      modifies this`tracepoints, this`enabled
      ensures State() == StartTracing(old(State()))
    {
      if enabled {
        return;
      }
      tracepoints := true;
      enabled := true;
    }

    method StopStatTracing()
      modifies this`tracepoints, this`enabled
      ensures State() == StopTracing(old(State()))
    {
      tracepoints := false;
      enabled := false;
    }

    /** Returns false where the C function raises ArgumentError or RangeError. */
    method StartSamplingProfiler() returns (ok: bool)
      requires profiler.Valid() && (sampling || profiler.os.armed == {})
      modifies this`sampling, profiler
      ensures profiler.Valid() && State() == StartSampling(old(State()))
      ensures ok <==> !SamplingRaises(old(State()))
    {
      if sampling {
        return true;
      }
      if clockType.NotASymbol? {
        return false;
      }
      if !CInt(interval) {
        return false;
      }
      profiler.Install(clockType == Symbol("wall"), interval);
      sampling := true;
      ok := true;
    }

    method StopSamplingProfiler()
      requires profiler.Valid() && (sampling ==> profiler.os.armed <= {profiler.clockType})
      modifies this`sampling, profiler
      ensures profiler.Valid() && State() == StopSampling(old(State()))
    {
      if !sampling {
        return;
      }
      profiler.Uninstall();
      sampling := false;
    }

    /** The logger's flags when the server stops. */
    method ClearFlags()
      requires tracer.Valid() && profiler.Valid()
      modifies this`tracepoints, this`enabled, this`sampling
      ensures tracer.Valid() && profiler.Valid()
      ensures State().(listLive := false, logger := false) == StopStatServer(old(State()))
    {
      ClearOwnFlags();
    }

    method ClearOwnFlags()
      modifies this`tracepoints, this`enabled, this`sampling
      ensures State().(listLive := false, logger := false) == StopStatServer(old(State()))
    {
      if enabled {
        StopStatTracing();
      }
      enabled, sampling := false, false;
    }

    /** The tracer's part leaves the profiler and the Ruby side alone. */
    method TearDown()
      requires tracer.Valid() && profiler.Valid() && tracer.logger
      modifies tracer`logger, tracer.publisher, tracer.publisher.list, tracer.tables
      ensures tracer.Valid() && profiler.Valid() && State() == old(State()).(listLive := false, logger := false)
      ensures tracer.publisher.state == P.Step(old(tracer.publisher.state), P.StopServer)
      ensures tracer.tables.owner == map[] && tracer.tables.strings == {} && tracer.tables.Contents() == map[]
      ensures tracer.tables.objectTable == map[]
      ensures tracer.publisher.list.messageArray == old(tracer.publisher.list.messageArray)
    {
      tracer.TearDown();
    }

    /** stop_stat_server: the list, every allocation info and every interned string are freed. */
    method StopServerParts()
      requires tracer.Valid() && profiler.Valid() && tracer.logger
      modifies this`tracepoints, this`enabled, this`sampling
      modifies tracer`logger, tracer.publisher, tracer.publisher.list, tracer.tables
      ensures tracer.Valid() && profiler.Valid() && State() == StopStatServer(old(State()))
      ensures tracer.publisher.state == P.Step(old(tracer.publisher.state), P.StopServer)
      ensures tracer.tables.owner == map[] && tracer.tables.strings == {} && tracer.tables.Contents() == map[]
      ensures tracer.tables.objectTable == map[]
      ensures tracer.publisher.list.messageArray == old(tracer.publisher.list.messageArray)
    {
      ClearFlags();
      TearDown();
    }

    // ----- Ruby methods

    method StartCpuProfiling() returns (ok: bool)
      requires profiler.Valid() && (sampling || profiler.os.armed == {})
      modifies this`mode, this`sampling, profiler
      ensures profiler.Valid() && State() == StartProfiling(old(State()))
      ensures ok <==> !SamplingRaises(old(State()))
    {
      mode := Sampling;
      ok := StartSamplingProfiler();
    }

    method StopCpuProfiling()
      requires profiler.Valid() && (sampling ==> profiler.os.armed <= {profiler.clockType})
      modifies this`sampling, profiler
      ensures profiler.Valid()
      ensures State() == if mode == Sampling then StopSampling(old(State())) else old(State())
    {
      if mode == Sampling {
        StopSamplingProfiler();
      }
    }

    /** Rbkit's `@server ||= Server.new`. */
    method EnsureServer()
      modifies this`created, this`running, this`clockType, this`mode, this`interval, this`gcStats
      ensures State() == NewServer(old(State()))
    {
      if !created {
        created, running := true, false;
        clockType, mode, interval, gcStats := Symbol("cpu"), Sampling, 1000, false;
      }
    }

    /** The options of start up to the profiler. */
    method Configure(o: Options)
      modifies this`tracepoints, this`enabled, this`clockType, this`mode, this`interval
      ensures State() == Configured(old(State()), o)
    {
      if o.objectTrace {
        StartStatTracing();
      }
      mode := GetOr(o.mode, mode);
      clockType := GetOr(o.clockType, clockType);
      interval := GetOr(o.interval, interval);
    }

    /** The part of start after the list and the logger exist; returns false where it raises. */
    method Launch(o: Options) returns (ok: bool)
      requires profiler.Valid() && (sampling || profiler.os.armed == {})
      modifies this, profiler
      ensures profiler.Valid() && State() == Launched(old(State()), o)
      ensures ok <==> !ConfigureRaises(old(State()), o)
    {
      Configure(o);
      ok := true;
      if o.cpuProfiling {
        ok := StartCpuProfiling();
      }
      if ok {
        gcStats := o.gcStats;
        running := true;
      }
    }

    /** start, from the point where the sockets are bound. */
    method Open(o: Options) returns (ok: bool)
      requires Valid() && created && !running
      modifies this, profiler, tracer`logger, tracer.publisher, tracer.publisher.list
      ensures tracer.Valid() && profiler.Valid()
      ensures State() == Launched(old(State()).(listLive := true, logger := true), o)
      ensures ok <==> !ConfigureRaises(old(State()).(listLive := true, logger := true), o)
      ensures tracer.publisher.state == P.Step(old(tracer.publisher.state), P.StartServer)
      ensures fresh(tracer.publisher.list.messageArray)
    {
      StartStatServer();
      ok := LaunchBeside(o);
    }

    /** Launching leaves the queue and the object table alone. */
    method LaunchBeside(o: Options) returns (ok: bool)
      requires tracer.Valid() && profiler.Valid() && (sampling || profiler.os.armed == {})
      modifies this, profiler
      ensures tracer.Valid() && profiler.Valid() && State() == Launched(old(State()), o)
      ensures ok <==> !ConfigureRaises(old(State()), o)
    {
      ok := Launch(o);
    }

    method Start(o: Options, bound: bool) returns (outcome: Outcome)
      requires Valid()
      modifies this, profiler, tracer`logger, tracer.publisher, tracer.publisher.list
      ensures tracer.Valid() && profiler.Valid() && State() == DoStart(old(State()), o, bound)
      ensures outcome == (if Refused(old(State()), bound) then NotStarted
                          else if StartRaises(old(State()), o, bound) then RaisedError else Running)
      ensures tracer.publisher.state == if outcome == NotStarted then old(tracer.publisher.state)
                                        else P.Step(old(tracer.publisher.state), P.StartServer)
      ensures outcome != RaisedError ==> Valid()
      ensures tracer.publisher.list.messageArray == old(tracer.publisher.list.messageArray)
              || fresh(tracer.publisher.list.messageArray)
    {
      StartKeepsInvIff(State(), o, bound);
      EnsureBeside();
      if running || !bound {
        return NotStarted;
      }
      var ok := Open(o);
      outcome := if ok then Running else RaisedError;
    }

    method EnsureBeside()
      requires Valid()
      modifies this`created, this`running, this`clockType, this`mode, this`interval, this`gcStats
      ensures Valid() && created && State() == NewServer(old(State()))
    {
      EnsureServer();
    }

    /** Stopping the profiler leaves the rest alone. */
    method StopProfiling()
      requires Valid()
      modifies this`sampling, profiler
      ensures tracer.Valid() && profiler.Valid()
      ensures State() == if mode == Sampling then StopSampling(old(State())) else old(State())
    {
      StopCpuProfiling();
    }

    /** Rbkit forgets its server, which no longer runs. */
    method ForgetServer()
      requires tracer.Valid() && profiler.Valid()
      modifies this`running, this`created
      ensures tracer.Valid() && profiler.Valid() && State() == old(State()).(running := false, created := false)
    {
      running := false;
      created := false;
    }

    /** What stop does after the profiler. */
    method CloseDown()
      requires tracer.Valid() && profiler.Valid() && tracer.logger
      modifies this, tracer`logger, tracer.publisher, tracer.publisher.list, tracer.tables
      ensures tracer.Valid() && profiler.Valid()
      ensures State() == StopStatServer(old(State())).(running := false, created := false)
      ensures tracer.publisher.state == P.Step(old(tracer.publisher.state), P.StopServer)
      ensures tracer.tables.owner == map[] && tracer.tables.strings == {} && tracer.tables.Contents() == map[]
      ensures tracer.tables.objectTable == map[]
      ensures tracer.publisher.list.messageArray == old(tracer.publisher.list.messageArray)
    {
      StopServerParts();
      ForgetServer();
    }

    /** A running server stops its profiler and then everything else. */
    method Quit()
      requires Valid() && created && running
      modifies this, profiler, tracer`logger, tracer.publisher, tracer.publisher.list, tracer.tables
      ensures tracer.Valid() && profiler.Valid() && State() == DoStop(old(State()))
      ensures tracer.publisher.state == P.Step(old(tracer.publisher.state), P.StopServer)
      ensures tracer.tables.owner == map[] && tracer.tables.strings == {} && tracer.tables.Contents() == map[]
      ensures tracer.tables.objectTable == map[]
      ensures tracer.publisher.list.messageArray == old(tracer.publisher.list.messageArray)
    {
      ghost var goal := DoStop(State());
      StopProfiling();
      assert StopStatServer(State()).(running := false, created := false) == goal;
      CloseDown();
    }

    /** Rbkit.stop_server. */
    method Stop() returns (stopped: bool)
      requires Valid()
      modifies this, profiler, tracer`logger, tracer.publisher, tracer.publisher.list, tracer.tables
      ensures Valid() && State() == DoStop(old(State())) && stopped == old(created && running)
      ensures stopped ==> profiler.os.armed == {} && tracer.tables.owner == map[] && tracer.tables.strings == {}
      ensures tracer.publisher.state == if stopped then P.Step(old(tracer.publisher.state), P.StopServer)
                                        else old(tracer.publisher.state)
      ensures tracer.tables.Contents() == if stopped then map[] else old(tracer.tables.Contents())
      ensures tracer.tables.objectTable == if stopped then map[] else old(tracer.tables.objectTable)
      ensures tracer.publisher.list.messageArray == old(tracer.publisher.list.messageArray)
    {
      StopKeepsInv(State());
      stopped := created && running;
      if stopped {
        Quit();
      }
    }

    // ----- commands

    /** The commands that only concern the tracepoints and the profiler. */
    method Act(r: Request) returns (ok: bool)
      requires profiler.Valid() && Inv(State()) && running
      modifies this, profiler
      ensures profiler.Valid() && State() == Obey(old(State()), r)
      ensures ok <==> !CommandRaises(old(State()), r)
    {
      ok := true;
      match r {
        case StartMemoryProfile =>
          StartStatTracing();
          gcStats := true;
        case StopMemoryProfile =>
          StopStatTracing();
          gcStats := false;
        case UseCpuTime =>
          clockType := Symbol("cpu");
        case UseWallTime =>
          clockType := Symbol("wall");
        case StartCpuProfiling =>
          ok := StartCpuProfiling();
        case StopCpuProfiling =>
          StopCpuProfiling();
        case _ =>
      }
    }

    method Respond(reply: Reply)
      modifies this`replies
      ensures State() == old(State()).(replies := old(replies) + [reply])
    {
      replies := replies + [reply];
    }

    /** A command other than a snapshot; returns false where it raises, and then sends no reply. */
    method Process(r: Request) returns (ok: bool)
      requires profiler.Valid() && Inv(State())
      modifies this, profiler
      ensures profiler.Valid() && State() == DoCommand(old(State()), r)
      ensures ok <==> !CommandRaises(old(State()), r)
    {
      if !running {
        return true;
      }
      if r == Request.Handshake {
        Respond(Status(tracer.logger && enabled, tracer.logger && sampling, clockType, mode));
        return true;
      }
      ok := Act(r);
      if ok {
        Respond(Ack);
      }
    }

    /** Such a command leaves the queue and the object table alone. */
    method ProcessBeside(r: Request) returns (ok: bool)
      requires Valid()
      modifies this, profiler
      ensures Valid() && State() == DoCommand(old(State()), r)
      ensures ok <==> !CommandRaises(old(State()), r)
    {
      CommandKeepsInv(State(), r);
      ok := Process(r);
    }

    /** send_objectspace_dump leaves the profiler and the Ruby side alone. */
    method SendDump(heap: seq<HeapObject>, clock: nat -> bytes, ghost records: seq<Record>, ghost after: P.State)
      requires tracer.Valid() && profiler.Valid() && tracer.logger
      requires records == RecordsOf(heap, tracer.tables.Contents())
      requires Dumpable(records, clock) && tracer.correlationId + 1 < TWO_31
      requires after == P.SendEach(tracer.publisher.state,
                                   DumpMessages(tracer.correlationId + 1, records, tracer.batchSize, clock))
      modifies tracer`correlationId, tracer`items, tracer.publisher, tracer.publisher.list
      modifies tracer.publisher.list.messageArray, tracer.arena
      ensures tracer.Valid() && profiler.Valid() && State() == old(State())
      ensures tracer.items == old(tracer.items) + [Dump(records, clock)]
      ensures tracer.publisher.state == after
      ensures tracer.publisher.list.messageArray == old(tracer.publisher.list.messageArray)
              || fresh(tracer.publisher.list.messageArray)
    {
      tracer.SendObjectspaceDump(heap, clock, records, after);
    }

    /** The snapshot command walks the heap into the queue. Every block of the dump is freed. */
    method Snapshot(heap: seq<HeapObject>, clock: nat -> bytes, ghost after: World)
      requires Valid() && tracer.logger
      requires Dumpable(RecordsOf(heap, tracer.tables.Contents()), clock) && tracer.correlationId + 1 < TWO_31
      requires after == Dumped(Now(), RecordsOf(heap, tracer.tables.Contents()), clock)
      modifies tracer`correlationId, tracer`items, tracer.publisher, tracer.publisher.list
      modifies tracer.publisher.list.messageArray, tracer.arena
      ensures Valid() && Now() == after
      ensures tracer.publisher.list.messageArray == old(tracer.publisher.list.messageArray)
              || fresh(tracer.publisher.list.messageArray)
    {
      SendDump(heap, clock, RecordsOf(heap, tracer.tables.Contents()), after.queue);
    }

    /** The acknowledgement leaves everything else alone. */
    method Acknowledge(ghost after: World)
      requires Valid() && after == Now().(control := State().(replies := replies + [Ack]))
      modifies this`replies
      ensures Valid() && Now() == after
    {
      Respond(Ack);
    }

    // ----- the inputs of the machine

    /** A snapshot is queued first and acknowledged then. */
    method AnswerSnapshot(e: Input, ghost after: World)
      requires Valid() && e.Requested? && TakesSnapshot(Now(), e.text) && Sized(Now(), e) && after == Next(Now(), e)
      modifies this`replies, tracer`correlationId, tracer`items, tracer.publisher, tracer.publisher.list
      modifies tracer.publisher.list.messageArray, tracer.arena
      ensures Valid() && Now() == after
      ensures tracer.publisher.list.messageArray == old(tracer.publisher.list.messageArray)
              || fresh(tracer.publisher.list.messageArray)
    {
      ghost var dumped := Dumped(Now(), RecordsOf(e.heap, tracer.tables.Contents()), e.clock);
      SnapshotThenAck(Now(), e);
      Snapshot(e.heap, e.clock, dumped);
      Acknowledge(after);
    }

    method AnswerOther(e: Input, ghost after: World) returns (ok: bool)
      requires Valid() && e.Requested? && !TakesSnapshot(Now(), e.text) && after == Next(Now(), e)
      modifies this, profiler
      ensures Valid() && Now() == after && ok == !CommandRaises(old(State()), RequestOf(e.text))
    {
      ok := ProcessBeside(RequestOf(e.text));
    }

    /** process_incoming_request; returns false where it raises, and then sends no reply. */
    method ProcessIncomingRequest(e: Input, ghost after: World) returns (ok: bool)
      requires Valid() && e.Requested? && Sized(Now(), e) && after == Next(Now(), e)
      modifies this, profiler, tracer`correlationId, tracer`items, tracer.publisher, tracer.publisher.list
      modifies tracer.publisher.list.messageArray, tracer.arena
      ensures Valid() && Now() == after && ok == !CommandRaises(old(State()), RequestOf(e.text))
      ensures tracer.publisher.list.messageArray == old(tracer.publisher.list.messageArray)
              || fresh(tracer.publisher.list.messageArray)
    {
      if running && RequestOf(e.text) == ObjectspaceSnapshot {
        AnswerSnapshot(e, after);
        ok := true;
      } else {
        ok := AnswerOther(e, after);
      }
    }

    /** newobj_i, if its tracepoint is on */
    method OnAllocated(e: Input, ghost after: World)
      requires Valid() && e.Allocated? && Sized(Now(), e) && after == Next(Now(), e)
      modifies tracer.packer, tracer`items, tracer.publisher, tracer.publisher.list
      modifies tracer.publisher.list.messageArray
      modifies tracer.tables, tracer.tables.objectTable.Values
      ensures Valid() && Now() == after
      ensures tracer.publisher.list.messageArray == old(tracer.publisher.list.messageArray)
              || fresh(tracer.publisher.list.messageArray)
      ensures forall i | i in tracer.tables.objectTable.Values :: i in old(tracer.tables.objectTable.Values) || fresh(i)
    {
      if tracepoints {
        Allocate(e, after);
      }
    }

    method Allocate(e: Input, ghost after: World)
      requires Valid() && tracer.logger && e.Allocated? && Sized(Now(), e)
      requires after == Sent(Now(), ObjCreated(e.ts, e.objectId, e.className)).(table := Remembered(Now().table, e))
      modifies tracer.packer, tracer`items, tracer.publisher, tracer.publisher.list
      modifies tracer.publisher.list.messageArray, tracer.tables, tracer.tables.objectTable.Values
      ensures Valid() && Now() == after
      ensures tracer.publisher.list.messageArray == old(tracer.publisher.list.messageArray)
              || fresh(tracer.publisher.list.messageArray)
      ensures forall i | i in tracer.tables.objectTable.Values :: i in old(tracer.tables.objectTable.Values) || fresh(i)
    {
      NewObject(e);
    }

    /** newobj_i leaves the profiler and the Ruby side alone. */
    method NewObject(e: Input)
      requires Valid() && tracer.logger && e.Allocated? && Fits(ObjCreated(e.ts, e.objectId, e.className))
      modifies tracer.packer, tracer`items, tracer.publisher, tracer.publisher.list
      modifies tracer.publisher.list.messageArray, tracer.tables, tracer.tables.objectTable.Values
      ensures Valid() && State() == old(State())
      ensures tracer.publisher.state
           == P.Step(old(tracer.publisher.state), P.Send(ObjCreated(e.ts, e.objectId, e.className)))
      ensures tracer.items == old(tracer.items) + [Other(ObjCreated(e.ts, e.objectId, e.className))]
      ensures tracer.tables.Contents() == Remembered(old(tracer.tables.Contents()), e)
      ensures tracer.publisher.list.messageArray == old(tracer.publisher.list.messageArray)
              || fresh(tracer.publisher.list.messageArray)
      ensures forall i | i in tracer.tables.objectTable.Values :: i in old(tracer.tables.objectTable.Values) || fresh(i)
    {
      tracer.NewObject(e.obj, e.path, e.line, e.definedClass, e.methodId, e.gcCount, e.objectId, e.className, e.ts);
    }

    /** freeobj_i, if its tracepoint is on */
    method OnFreed(e: Input, ghost after: World)
      requires Valid() && e.Freed? && Sized(Now(), e) && after == Next(Now(), e)
      modifies tracer.packer, tracer`items, tracer.publisher, tracer.publisher.list
      modifies tracer.publisher.list.messageArray
      modifies tracer.tables
      ensures Valid() && Now() == after
      ensures tracer.publisher.list.messageArray == old(tracer.publisher.list.messageArray)
              || fresh(tracer.publisher.list.messageArray)
      ensures tracer.tables.objectTable.Values <= old(tracer.tables.objectTable.Values)
    {
      if tracepoints {
        FreeObject(e, P.Step(tracer.publisher.state, P.Send(ObjDestroyed(e.ts, e.objectId))));
      }
    }

    /** freeobj_i leaves the profiler and the Ruby side alone. */
    method FreeObject(e: Input, ghost queue: P.State)
      requires Valid() && tracer.logger && e.Freed? && Fits(ObjDestroyed(e.ts, e.objectId))
      requires queue == P.Step(tracer.publisher.state, P.Send(ObjDestroyed(e.ts, e.objectId)))
      modifies tracer.packer, tracer`items, tracer.publisher, tracer.publisher.list
      modifies tracer.publisher.list.messageArray, tracer.tables
      ensures Valid() && State() == old(State()) && tracer.publisher.state == queue
      ensures tracer.items == old(tracer.items) + [Other(ObjDestroyed(e.ts, e.objectId))]
      ensures tracer.tables.Contents() == old(tracer.tables.Contents()) - {e.obj}
      ensures tracer.publisher.list.messageArray == old(tracer.publisher.list.messageArray)
              || fresh(tracer.publisher.list.messageArray)
      ensures tracer.tables.objectTable.Values <= old(tracer.tables.objectTable.Values)
    {
      tracer.FreeObject(e.obj, e.objectId, e.ts);
    }

    /** A garbage collection phase, if its tracepoint is on */
    method OnGcPhased(e: Input, ghost after: World)
      requires Valid() && e.GcPhased? && Sized(Now(), e) && after == Next(Now(), e)
      modifies tracer.packer, tracer`items, tracer.publisher, tracer.publisher.list
      modifies tracer.publisher.list.messageArray
      ensures Valid() && Now() == after
      ensures tracer.publisher.list.messageArray == old(tracer.publisher.list.messageArray)
              || fresh(tracer.publisher.list.messageArray)
    {
      if tracepoints {
        QueuePhase(e.m, after);
      }
    }

    method QueuePhase(m: Message, ghost after: World)
      requires Valid() && tracer.logger && IsGcPhase(m) && Fits(m) && after == Sent(Now(), m)
      modifies tracer.packer, tracer`items, tracer.publisher, tracer.publisher.list
      modifies tracer.publisher.list.messageArray
      ensures Valid() && Now() == after
      ensures tracer.publisher.list.messageArray == old(tracer.publisher.list.messageArray)
              || fresh(tracer.publisher.list.messageArray)
    {
      GcPhase(m);
    }

    /** A garbage collection tracepoint leaves the profiler and the Ruby side alone. */
    method GcPhase(m: Message)
      requires Valid() && tracer.logger && IsGcPhase(m) && Fits(m)
      modifies tracer.packer, tracer`items, tracer.publisher, tracer.publisher.list
      modifies tracer.publisher.list.messageArray
      ensures Valid() && State() == old(State()) && tracer.items == old(tracer.items) + [Other(m)]
      ensures tracer.publisher.state == P.Step(old(tracer.publisher.state), P.Send(m))
      ensures tracer.publisher.list.messageArray == old(tracer.publisher.list.messageArray)
              || fresh(tracer.publisher.list.messageArray)
    {
      tracer.GcPhase(m);
    }

    /** The GC timer, which may run once more after a stop */
    method OnGcStatsDue(e: Input, ghost after: World)
      requires Valid() && e.GcStatsDue? && Sized(Now(), e) && after == Next(Now(), e)
      modifies tracer`items, tracer.publisher, tracer.publisher.list, tracer.publisher.list.messageArray
      ensures Valid() && Now() == after
      ensures tracer.publisher.list.messageArray == old(tracer.publisher.list.messageArray)
              || fresh(tracer.publisher.list.messageArray)
    {
      if tracer.logger {
        QueueStats(e.hash, e.ts, after);
      }
    }

    method QueueStats(hash: seq<(RubyValue, RubyValue)>, ts: bytes, ghost after: World)
      requires Valid() && tracer.logger && Fits(StatsMessage(hash, ts)) && after == Sent(Now(), StatsMessage(hash, ts))
      modifies tracer`items, tracer.publisher, tracer.publisher.list, tracer.publisher.list.messageArray
      ensures Valid() && Now() == after
      ensures tracer.publisher.list.messageArray == old(tracer.publisher.list.messageArray)
              || fresh(tracer.publisher.list.messageArray)
    {
      SendStats(hash, ts);
    }

    /** send_hash_as_event leaves the profiler and the Ruby side alone. */
    method SendStats(hash: seq<(RubyValue, RubyValue)>, ts: bytes)
      requires Valid() && tracer.logger && Fits(StatsMessage(hash, ts))
      modifies tracer`items, tracer.publisher, tracer.publisher.list, tracer.publisher.list.messageArray
      ensures Valid() && State() == old(State())
      ensures tracer.items == old(tracer.items) + [Other(StatsMessage(hash, ts))]
      ensures tracer.publisher.state == P.Step(old(tracer.publisher.state), P.Send(StatsMessage(hash, ts)))
      ensures tracer.publisher.list.messageArray == old(tracer.publisher.list.messageArray)
              || fresh(tracer.publisher.list.messageArray)
    {
      var _ := tracer.SendHashAsEvent(hash, GC_STATS, ts);
    }

    /** An expiring timer finds its handler, which registers the sampling job. */
    method OnTimerExpired(ghost after: World)
      requires Valid() && after == Next(Now(), TimerExpired)
      modifies this`samplePending
      ensures Valid() && Now() == after
      ensures RealTimer in profiler.os.armed ==> profiler.os.alrm == Handled
      ensures ProfTimer in profiler.os.armed ==> profiler.os.prof == Handled
    {
      if profiler.os.armed != {} {
        samplePending := true;
      }
    }

    /** The registration of the sampling job is used up. */
    method TakeJob()
      requires Valid()
      modifies this`samplePending
      ensures Valid() && Now() == old(Now()).(control := old(State()).(samplePending := false))
    {
      samplePending := false;
    }

    /** sampling_job_handler, if registered; it needs a list to queue into. */
    method OnSampleDue(e: Input, ghost after: World)
      requires Valid() && e.SampleDue? && Sized(Now(), e) && Provided(State()) && after == Next(Now(), e)
      modifies this`samplePending, tracer`items, tracer.publisher, tracer.publisher.list
      modifies tracer.publisher.list.messageArray
      ensures Valid() && Now() == after
      ensures tracer.publisher.list.messageArray == old(tracer.publisher.list.messageArray)
              || fresh(tracer.publisher.list.messageArray)
    {
      ghost var taken := Now().(control := State().(samplePending := false));
      if samplePending {
        assert after == Sent(taken, SampleMessage(e.raw, e.ts));
        TakeJob();
        QueueSample(e.raw, e.ts, after);
      }
    }

    method QueueSample(raw: seq<RawFrame>, ts: bytes, ghost after: World)
      requires Valid() && tracer.logger && |raw| <= BUF_SIZE && Fits(SampleMessage(raw, ts))
      requires after == Sent(Now(), SampleMessage(raw, ts))
      modifies tracer`items, tracer.publisher, tracer.publisher.list, tracer.publisher.list.messageArray
      ensures Valid() && Now() == after
      ensures tracer.publisher.list.messageArray == old(tracer.publisher.list.messageArray)
              || fresh(tracer.publisher.list.messageArray)
    {
      tracer.SamplingJobHandler(raw, ts);
    }

    /** A start that does not raise. */
    method OnStarted(e: Input, ghost after: World) returns (outcome: Outcome)
      requires Valid() && e.Started? && !StartRaises(State(), e.options, e.bound) && after == Next(Now(), e)
      modifies this, profiler, tracer`logger, tracer.publisher, tracer.publisher.list
      ensures Valid() && Now() == after && outcome == if Refused(old(State()), e.bound) then NotStarted else Running
      ensures tracer.publisher.list.messageArray == old(tracer.publisher.list.messageArray)
              || fresh(tracer.publisher.list.messageArray)
    {
      outcome := Start(e.options, e.bound);
    }

    method OnStopped(ghost after: World) returns (stopped: bool)
      requires Valid() && after == Next(Now(), Stopped)
      modifies this, profiler, tracer`logger, tracer.publisher, tracer.publisher.list, tracer.tables
      ensures Valid() && Now() == after && stopped == Stops(old(Now()))
      ensures tracer.tables.objectTable.Values <= old(tracer.tables.objectTable.Values)
      ensures tracer.publisher.list.messageArray == old(tracer.publisher.list.messageArray)
    {
      stopped := Stop();
    }

    method OnDispatchDue(ghost after: World)
      requires Valid() && after == Next(Now(), DispatchDue)
      modifies tracer.publisher
      ensures Valid() && Now() == after
    {
      tracer.DispatchTimer();
    }

    method OnTestModeSet(on: bool, ghost after: World)
      requires Valid() && after == Next(Now(), TestModeSet(on))
      modifies tracer.publisher
      ensures Valid() && Now() == after
    {
      tracer.SetTestMode(on);
    }

    method OnJobBegun(ts: bytes, ghost after: World)
      requires Valid() && Sized(Now(), JobBegun(ts)) && after == Next(Now(), JobBegun(ts))
      modifies tracer.publisher, tracer.publisher.counter
      ensures Valid() && Now() == after
    {
      tracer.JobBegins(ts);
    }

    method OnJobEnded(ghost after: World)
      requires Valid() && after == Next(Now(), JobEnded)
      modifies tracer.publisher, tracer.publisher.list
      ensures Valid() && Now() == after
      ensures tracer.publisher.list.messageArray == old(tracer.publisher.list.messageArray)
    {
      tracer.JobEnds();
    }

    method HandleApi(e: Input, ghost after: World)
      requires Valid() && Acceptable(Now(), e) && after == Next(Now(), e)
      requires OfTheApi(e)
      modifies this, profiler, tracer, tracer.packer, tracer.arena, tracer.publisher, tracer.publisher.list
      modifies tracer.publisher.list.messageArray, tracer.publisher.counter
      modifies tracer.tables, tracer.tables.objectTable.Values
      ensures Valid() && Now() == after
      ensures tracer.publisher.list.messageArray == old(tracer.publisher.list.messageArray)
              || fresh(tracer.publisher.list.messageArray)
      ensures forall i | i in tracer.tables.objectTable.Values :: i in old(tracer.tables.objectTable.Values) || fresh(i)
    {
      if e.Started? {
        var _ := OnStarted(e, after);
      } else if e.Stopped? {
        var _ := OnStopped(after);
      } else {
        var _ := ProcessIncomingRequest(e, after);
      }
    }

    method HandleTracepoint(e: Input, ghost after: World)
      requires Valid() && Acceptable(Now(), e) && after == Next(Now(), e)
      requires OfTheTracepoints(e)
      modifies this, profiler, tracer, tracer.packer, tracer.arena, tracer.publisher, tracer.publisher.list
      modifies tracer.publisher.list.messageArray, tracer.publisher.counter
      modifies tracer.tables, tracer.tables.objectTable.Values
      ensures Valid() && Now() == after
      ensures tracer.publisher.list.messageArray == old(tracer.publisher.list.messageArray)
              || fresh(tracer.publisher.list.messageArray)
      ensures forall i | i in tracer.tables.objectTable.Values :: i in old(tracer.tables.objectTable.Values) || fresh(i)
    {
      if e.Allocated? {
        OnAllocated(e, after);
      } else if e.Freed? {
        OnFreed(e, after);
      } else {
        OnGcPhased(e, after);
      }
    }

    method HandleProfiler(e: Input, ghost after: World)
      requires Valid() && Acceptable(Now(), e) && after == Next(Now(), e)
      requires OfTheProfiler(e)
      modifies this, profiler, tracer, tracer.packer, tracer.arena, tracer.publisher, tracer.publisher.list
      modifies tracer.publisher.list.messageArray, tracer.publisher.counter
      modifies tracer.tables, tracer.tables.objectTable.Values
      ensures Valid() && Now() == after
      ensures tracer.publisher.list.messageArray == old(tracer.publisher.list.messageArray)
              || fresh(tracer.publisher.list.messageArray)
      ensures forall i | i in tracer.tables.objectTable.Values :: i in old(tracer.tables.objectTable.Values) || fresh(i)
    {
      if e.GcStatsDue? {
        OnGcStatsDue(e, after);
      } else if e.TimerExpired? {
        OnTimerExpired(after);
      } else {
        OnSampleDue(e, after);
      }
    }

    method HandleQueue(e: Input, ghost after: World)
      requires Valid() && Acceptable(Now(), e) && after == Next(Now(), e)
      requires !OfTheApi(e) && !OfTheTracepoints(e) && !OfTheProfiler(e)
      modifies this, profiler, tracer, tracer.packer, tracer.arena, tracer.publisher, tracer.publisher.list
      modifies tracer.publisher.list.messageArray, tracer.publisher.counter
      modifies tracer.tables, tracer.tables.objectTable.Values
      ensures Valid() && Now() == after
      ensures tracer.publisher.list.messageArray == old(tracer.publisher.list.messageArray)
              || fresh(tracer.publisher.list.messageArray)
      ensures forall i | i in tracer.tables.objectTable.Values :: i in old(tracer.tables.objectTable.Values) || fresh(i)
    {
      match e {
        case DispatchDue => OnDispatchDue(after);
        case JobBegun(ts) => OnJobBegun(ts, after);
        case JobEnded => OnJobEnded(after);
        case TestModeSet(on) => OnTestModeSet(on, after);
      }
    }

    /** Any input. */
    method Handle(e: Input, ghost after: World)
      requires Valid() && Acceptable(Now(), e) && after == Next(Now(), e)
      modifies this, profiler, tracer, tracer.packer, tracer.arena, tracer.publisher, tracer.publisher.list
      modifies tracer.publisher.list.messageArray, tracer.publisher.counter
      modifies tracer.tables, tracer.tables.objectTable.Values
      ensures Valid() && Now() == after
      ensures tracer.publisher.list.messageArray == old(tracer.publisher.list.messageArray)
              || fresh(tracer.publisher.list.messageArray)
      ensures forall i | i in tracer.tables.objectTable.Values :: i in old(tracer.tables.objectTable.Values) || fresh(i)
    {
      if OfTheApi(e) {
        HandleApi(e, after);
      } else if OfTheTracepoints(e) {
        HandleTracepoint(e, after);
      } else if OfTheProfiler(e) {
        HandleProfiler(e, after);
      } else {
        HandleQueue(e, after);
      }
    }

    /** The inputs from number i on, one after the other. */
    method HandleFrom(inputs: seq<Input>, ghost ws: seq<World>, i: nat)
      requires Valid() && Chained(ws, inputs) && i <= |inputs| && Now() == ws[i]
      modifies this, profiler, tracer, tracer.packer, tracer.arena, tracer.publisher, tracer.publisher.list
      modifies tracer.publisher.list.messageArray, tracer.publisher.counter
      modifies tracer.tables, tracer.tables.objectTable.Values
      ensures Valid() && Now() == ws[|inputs|]
      decreases |inputs| - i
    {
      if i < |inputs| {
        assert Link(ws, inputs, i);
        Handle(inputs[i], ws[i + 1]);
        HandleFrom(inputs, ws, i + 1);
      }
    }
  }

  /** The process starts and meets all the inputs. */
  method ServeAll(inputs: seq<Input>, pageSize: Positive, batchSize: Positive, ghost ws: seq<World>)
    returns (server: Server)
    requires batchSize < TWO_32 && Chained(ws, inputs) && ws[0] == NewWorld(batchSize)
    ensures server.Valid() && server.Now() == ws[|inputs|]
  {
    server := new Server(pageSize, batchSize);
    server.HandleFrom(inputs, ws, 0);
  }

  /**
   A whole run: for any inputs in range, without a start that raises and without a
   stop that leaves a sampling job behind, the server takes exactly the steps of
   its machine, and with them those of the lifecycle and of the batching protocol.
   Every call of queue_message on the way finds its list.
   */
  method Serve(inputs: seq<Input>, pageSize: Positive, batchSize: Positive) returns (server: Server)
    requires batchSize < TWO_32 && AllSized(batchSize, inputs)
    requires NeverRaises(INITIAL, AllControlOps(inputs)) && NeverLeavesJob(INITIAL, AllControlOps(inputs))
    ensures server.Valid() && server.Now() == After(batchSize, inputs)
    ensures server.State() == Run(INITIAL, AllControlOps(inputs))
    ensures server.tracer.publisher.state == P.Run(P.INITIAL, AllQueueOps(batchSize, inputs))
  {
    ghost var ws := Worlds(batchSize, inputs);
    server := ServeAll(inputs, pageSize, batchSize, ws);
    ControlRun(batchSize, inputs);
    QueueRun(batchSize, inputs);
  }

  /**
   End to end over a whole run: if no message was queued between the two halves of
   a publish job and no stop found one waiting, and nothing is left to send, then
   a subscriber that decodes the published buffers recovers every snapshot, whole,
   under an id of its own, with its size announced in each of its messages; and its
   records show exactly the heap and the object table that the command met.
   */
  lemma ServedDumps(server: Server, batchSize: Positive, inputs: seq<Input>, i: nat)
    requires server.Valid() && server.Now() == After(batchSize, inputs)
    requires P.AllHarmless(P.INITIAL, AllQueueOps(batchSize, inputs))
    requires var q := server.Now().queue; !q.running && q.list == []
    requires i < |server.Now().items| && server.Now().items[i].Dump?
    ensures Subscribe(server.tracer.publisher.outbox).Some?
    ensures var ms, items := Received(Subscribe(server.tracer.publisher.outbox).value), server.Now().items;
            && Reassemble(ms, IdOf(items, i, 1)) == items[i].records
            && Announces(ms, IdOf(items, i, 1), |items[i].records|)
    ensures exists k: nat :: SnapshotAt(batchSize, inputs, k, server.Now().items[i].records)
  {
    QueueRun(batchSize, inputs);
    P.RunDooms(AllQueueOps(batchSize, inputs));
    DumpsFromBytes(server.tracer, i);
    DumpsAreSnapshots(batchSize, inputs, i);
  }
}
