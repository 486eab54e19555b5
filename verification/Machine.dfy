/**
 The whole server as one state machine: the lifecycle, the queue with its jobs,
 the table of live objects and the record of everything queued, under the inputs
 that reach the process.
 */
module Machine {
  import opened Wrappers
  import opened MessagePack
  import opened Messages
  import opened Sequences
  import opened Packers
  import opened AllocationInfo
  import opened ObjectGraph
  import opened DumpStream
  import opened ClientView
  import opened Lifecycle
  import opened Tracer
  import P = PublishProtocol

  datatype Input =
    | Started(options: Options, bound: bool)
    | Stopped
    | Requested(text: string, heap: seq<HeapObject>, clock: nat -> bytes)  // what a snapshot would see, and when
    | Allocated(obj: Obj, path: Text, line: nat, definedClass: DefinedClass, methodId: nat, gcCount: nat,
                objectId: nat, className: Text, ts: bytes)
    | Freed(obj: Obj, objectId: nat, ts: bytes)
    | GcPhased(m: Message)
    | GcStatsDue(hash: seq<(RubyValue, RubyValue)>, ts: bytes)
    | TimerExpired
    | SampleDue(raw: seq<RawFrame>, ts: bytes)
    | DispatchDue
    | JobBegun(ts: bytes)
    | JobEnded
    | TestModeSet(on: bool)

  datatype World = World(batchSize: Positive, control: Control, queue: P.State, table: map<Obj, Allocation>,
                         items: seq<Item>)

  function NewWorld(batchSize: Positive): World {
    World(batchSize, INITIAL, P.INITIAL, map[], [])
  }

  /** A message other than a heap dump is queued. */
  function Sent(w: World, m: Message): World {
    w.(queue := P.Step(w.queue, P.Send(m)), items := w.items + [Other(m)])
  }

  /** A heap dump is queued, batch after batch, under the next correlation id. */
  function Dumped(w: World, records: seq<Record>, clock: nat -> bytes): World {
    w.(queue := P.SendEach(w.queue, DumpMessages(DumpCount(w.items) + 1, records, w.batchSize, clock)),
       items := w.items + [Dump(records, clock)])
  }

  predicate TakesSnapshot(w: World, text: string) {
    w.control.running && RequestOf(text) == ObjectspaceSnapshot
  }

  predicate Stops(w: World) {
    w.control.created && w.control.running
  }

  function Remembered(table: map<Obj, Allocation>, e: Input): map<Obj, Allocation>
    requires e.Allocated?
  {
    table[e.obj := Allocation(e.path, e.line, ClassPathOf(e.definedClass), e.methodId, e.gcCount)]
  }

  function StatsMessage(hash: seq<(RubyValue, RubyValue)>, ts: bytes): Message {
    HashMessage(ts, GcStats, HashEntries(hash))
  }

  function SampleMessage(raw: seq<RawFrame>, ts: bytes): Message {
    CpuSample(ts, MapSeq(FrameOf, raw))
  }

  /** What an input does. */
  function Next(w: World, e: Input): World {
    match e
    case Started(o, bound) =>
      w.(control := DoStart(w.control, o, bound),
         queue := if Refused(w.control, bound) then w.queue else P.Step(w.queue, P.StartServer))
    case Stopped =>
      w.(control := DoStop(w.control),
         queue := if Stops(w) then P.Step(w.queue, P.StopServer) else w.queue,
         table := if Stops(w) then map[] else w.table)
    case Requested(text, heap, clock) =>
      var answered := w.(control := DoCommand(w.control, RequestOf(text)));
      if TakesSnapshot(w, text) then Dumped(answered, RecordsOf(heap, w.table), clock) else answered
    case Allocated(_, _, _, _, _, _, id, className, ts) =>
      if w.control.tracepoints then Sent(w, ObjCreated(ts, id, className)).(table := Remembered(w.table, e)) else w
    case Freed(obj, id, ts) =>
      if w.control.tracepoints then Sent(w, ObjDestroyed(ts, id)).(table := w.table - {obj}) else w
    case GcPhased(m) => if w.control.tracepoints then Sent(w, m) else w
    case GcStatsDue(hash, ts) => if w.control.logger then Sent(w, StatsMessage(hash, ts)) else w
    case TimerExpired => w.(control := Step(w.control, TimerSignal))
    case SampleDue(raw, ts) =>
      if w.control.samplePending then Sent(w.(control := Step(w.control, SamplingJob)), SampleMessage(raw, ts)) else w
    case DispatchDue => w.(queue := P.Step(w.queue, P.Timer))
    case JobBegun(_) => w.(queue := P.Step(w.queue, P.BeginJob))
    case JobEnded => w.(queue := P.Step(w.queue, P.EndJob))
    case TestModeSet(on) => w.(queue := P.Step(w.queue, P.SetTestMode(on)))
  }

  /** A snapshot is queued first and acknowledged then. */
  lemma SnapshotThenAck(w: World, e: Input)
    requires e.Requested? && TakesSnapshot(w, e.text)
    ensures var dumped := Dumped(w, RecordsOf(e.heap, w.table), e.clock);
            Next(w, e) == dumped.(control := dumped.control.(replies := dumped.control.replies + [Ack]))
  {
  }

  /** The world after all the inputs. */
  function After(batchSize: Positive, inputs: seq<Input>): World {
    Fold(Next, NewWorld(batchSize), inputs)
  }

  // ----- runs of the machine are runs of its parts

  /** The lifecycle step of an input. */
  function ControlOps(e: Input): seq<Op> {
    match e
    case Started(o, bound) => [Start(o, bound)]
    case Stopped => [Stop]
    case Requested(text, _, _) => [Command(text)]
    case Allocated(_, _, _, _, _, _, _, _, _) => [Tracepoint]
    case Freed(_, _, _) => [Tracepoint]
    case GcPhased(_) => [Tracepoint]
    case GcStatsDue(_, _) => [GcStatsTimer]
    case TimerExpired => [TimerSignal]
    case SampleDue(_, _) => [SamplingJob]
    case _ => []
  }

  function If<T>(c: bool, x: T): seq<T> {
    if c then [x] else []
  }

  /** The steps an input makes the batching protocol take. */
  function QueueOps(w: World, e: Input): seq<P.Op> {
    match e
    case Started(o, bound) => If(!Refused(w.control, bound), P.StartServer)
    case Stopped => If(Stops(w), P.StopServer)
    case Requested(text, heap, clock) =>
      if !TakesSnapshot(w, text) then []
      else MapSeq(P.SendOp, DumpMessages(DumpCount(w.items) + 1, RecordsOf(heap, w.table), w.batchSize, clock))
    case Allocated(_, _, _, _, _, _, id, className, ts) =>
      If(w.control.tracepoints, P.Send(ObjCreated(ts, id, className)))
    case Freed(_, id, ts) => If(w.control.tracepoints, P.Send(ObjDestroyed(ts, id)))
    case GcPhased(m) => If(w.control.tracepoints, P.Send(m))
    case GcStatsDue(hash, ts) => If(w.control.logger, P.Send(StatsMessage(hash, ts)))
    case SampleDue(raw, ts) => If(w.control.samplePending, P.Send(SampleMessage(raw, ts)))
    case DispatchDue => [P.Timer]
    case JobBegun(_) => [P.BeginJob]
    case JobEnded => [P.EndJob]
    case TestModeSet(on) => [P.SetTestMode(on)]
    case _ => []
  }

  function AllControlOps(inputs: seq<Input>): seq<Op> {
    FlatMap(ControlOps, inputs)
  }

  function AllQueueOps(batchSize: Positive, inputs: seq<Input>): seq<P.Op> {
    Trace(Next, QueueOps, NewWorld(batchSize), inputs)
  }

  lemma AfterSnoc(batchSize: Positive, inputs: seq<Input>, e: Input)
    ensures After(batchSize, inputs + [e]) == Next(After(batchSize, inputs), e)
  {
    FoldSnoc(Next, NewWorld(batchSize), inputs, e);
  }

  function ControlOf(w: World): Control {
    w.control
  }

  function ControlSteps(w: World, e: Input): seq<Op> {
    ControlOps(e)
  }

  lemma NextControl(w: World, e: Input)
    ensures ControlOf(Next(w, e)) == Fold(Lifecycle.Step, ControlOf(w), ControlSteps(w, e))
  {
    if ControlOps(e) != [] {
      FoldOne(Lifecycle.Step, w.control, ControlOps(e)[0]);
    }
  }

  /** The lifecycle of a run is a run of the lifecycle machine. */
  lemma ControlRun(batchSize: Positive, inputs: seq<Input>)
    ensures After(batchSize, inputs).control == Run(INITIAL, AllControlOps(inputs))
  {
    forall w, e ensures ControlOf(Next(w, e)) == Fold(Lifecycle.Step, ControlOf(w), ControlSteps(w, e)) {
      NextControl(w, e);
    }
    FoldTrace(Next, ControlOf, Lifecycle.Step, ControlSteps, NewWorld(batchSize), inputs);
    TraceFlat(Next, ControlSteps, ControlOps, NewWorld(batchSize), inputs);
  }

  lemma NextQueueOne(w: World, e: Input)
    requires !(e.Requested? && TakesSnapshot(w, e.text))
    ensures QueueOps(w, e) == [] ==> Next(w, e).queue == w.queue
    ensures QueueOps(w, e) != [] ==>
              QueueOps(w, e)[1..] == [] && Next(w, e).queue == P.Step(w.queue, QueueOps(w, e)[0])
  {
  }

  lemma NextQueueDump(w: World, e: Input)
    requires e.Requested? && TakesSnapshot(w, e.text)
    ensures Next(w, e).queue == Fold(P.Step, w.queue, QueueOps(w, e))
  {
    P.SendEachIsRun(w.queue, DumpMessages(DumpCount(w.items) + 1, RecordsOf(e.heap, w.table), w.batchSize, e.clock));
  }

  lemma NextQueue(w: World, e: Input)
    ensures QueueOf(Next(w, e)) == Fold(P.Step, QueueOf(w), QueueOps(w, e))
  {
    if e.Requested? && TakesSnapshot(w, e.text) {
      NextQueueDump(w, e);
    } else {
      NextQueueOne(w, e);
      FewSteps(w.queue, QueueOps(w, e));
    }
  }

  lemma FewSteps(s: P.State, ops: seq<P.Op>)
    ensures ops == [] ==> Fold(P.Step, s, ops) == s
    ensures ops != [] && ops[1..] == [] ==> Fold(P.Step, s, ops) == P.Step(s, ops[0])
  {
  }

  function QueueOf(w: World): P.State {
    w.queue
  }

  /** The queue of a run is a run of the batching protocol. */
  lemma QueueRun(batchSize: Positive, inputs: seq<Input>)
    ensures After(batchSize, inputs).queue == P.Run(P.INITIAL, AllQueueOps(batchSize, inputs))
  {
    forall w, e ensures QueueOf(Next(w, e)) == Fold(P.Step, QueueOf(w), QueueOps(w, e)) {
      NextQueue(w, e);
    }
    FoldTrace(Next, QueueOf, P.Step, QueueOps, NewWorld(batchSize), inputs);
  }

  // ----- what is assumed of the inputs

  /** The C types hold what an input and its messages carry; a heap that is dumped has an object. */
  ghost predicate Sized(w: World, e: Input) {
    match e
    case Requested(text, heap, clock) =>
      TakesSnapshot(w, text) ==> Dumpable(RecordsOf(heap, w.table), clock) && DumpCount(w.items) + 1 < TWO_31
    case Allocated(_, _, _, _, _, _, id, className, ts) => Fits(ObjCreated(ts, id, className))
    case Freed(_, id, ts) => Fits(ObjDestroyed(ts, id))
    case GcPhased(m) => IsGcPhase(m) && Fits(m)
    case GcStatsDue(hash, ts) => Fits(StatsMessage(hash, ts))
    case SampleDue(raw, ts) => |raw| <= BUF_SIZE && Fits(SampleMessage(raw, ts))
    case JobBegun(ts) => |ts| == 8 && |w.queue.list| < TWO_32
    case _ => true
  }

  /** Every input so far found the world it meets in range. */
  ghost predicate AllSized(batchSize: Positive, inputs: seq<Input>) {
    forall i {:trigger inputs[i]} | 0 <= i < |inputs| :: Sized(After(batchSize, inputs[..i]), inputs[i])
  }

  /** An input in range, other than a start that raises and a sampling job without a list. */
  ghost predicate Acceptable(w: World, e: Input) {
    && Sized(w, e)
    && (e.Started? ==> !StartRaises(w.control, e.options, e.bound))
    && (e.SampleDue? ==> Provided(w.control))
  }

  predicate OfTheApi(e: Input) {
    e.Started? || e.Stopped? || e.Requested?
  }

  predicate OfTheTracepoints(e: Input) {
    e.Allocated? || e.Freed? || e.GcPhased?
  }

  predicate OfTheProfiler(e: Input) {
    e.GcStatsDue? || e.TimerExpired? || e.SampleDue?
  }

  /** The lifecycle steps before input i, with the steps of input i, begin those of the whole run. */
  lemma ControlOpsAt(inputs: seq<Input>, i: nat)
    requires i < |inputs|
    ensures var ops, rest := AllControlOps(inputs[..i]) + ControlOps(inputs[i]), AllControlOps(inputs[i + 1..]);
            AllControlOps(inputs) == ops + rest
  {
    assert inputs[..i + 1][..i] == inputs[..i];
    FlatMapConcat(ControlOps, inputs[..i + 1], inputs[i + 1..]);
    assert inputs == inputs[..i + 1] + inputs[i + 1..];
  }

  /** In a run without a raising start and without a sampling job left behind every input is acceptable. */
  lemma AcceptableAt(batchSize: Positive, inputs: seq<Input>, i: nat)
    requires i < |inputs| && AllSized(batchSize, inputs)
    requires NeverRaises(INITIAL, AllControlOps(inputs)) && NeverLeavesJob(INITIAL, AllControlOps(inputs))
    ensures var w := After(batchSize, inputs[..i]);
            Acceptable(w, inputs[i]) && After(batchSize, inputs[..i + 1]) == Next(w, inputs[i])
  {
    AfterSnoc(batchSize, inputs[..i], inputs[i]);
    assert inputs[..i + 1] == inputs[..i] + [inputs[i]];
    var ops, now := AllControlOps(inputs[..i]), ControlOps(inputs[i]);
    ControlRun(batchSize, inputs[..i]);
    ControlOpsAt(inputs, i);
    NeverBefore(ops + now, AllControlOps(inputs[i + 1..]));
    NeverBefore(ops, now);
    if now != [] {
      assert now == [now[0]];
      RunSnoc(ops, now[0]);
    }
    RunKeepsInv(ops);
    QueuesFindListIff(ops);
    LastProvided(ops);
    ProvidedIff(Run(INITIAL, ops));
  }

  /** One step of a run that meets only acceptable inputs. */
  ghost predicate Link(ws: seq<World>, inputs: seq<Input>, i: nat)
    requires i < |inputs| && i + 1 < |ws|
  {
    Acceptable(ws[i], inputs[i]) && ws[i + 1] == Next(ws[i], inputs[i])
  }

  ghost predicate Chained(ws: seq<World>, inputs: seq<Input>) {
    |ws| == |inputs| + 1 && forall i {:trigger Link(ws, inputs, i)} | 0 <= i < |inputs| :: Link(ws, inputs, i)
  }

  /** The worlds of a run. */
  lemma Worlds(batchSize: Positive, inputs: seq<Input>) returns (ws: seq<World>)
    requires AllSized(batchSize, inputs)
    requires NeverRaises(INITIAL, AllControlOps(inputs)) && NeverLeavesJob(INITIAL, AllControlOps(inputs))
    ensures Chained(ws, inputs) && ws[0] == NewWorld(batchSize) && ws[|inputs|] == After(batchSize, inputs)
  {
    ws := seq(|inputs| + 1, i requires 0 <= i <= |inputs| => After(batchSize, inputs[..i]));
    forall i | 0 <= i < |inputs| ensures Link(ws, inputs, i) {
      AcceptableAt(batchSize, inputs, i);
    }
    assert inputs[..0] == [] && inputs[..|inputs|] == inputs;
  }

  // ----- what a run leaves behind

  /** The input says something about an object: its allocation or its end while tracing is on, or the end of all. */
  predicate Touches(w: World, e: Input, o: Obj) {
    || ((e.Allocated? || e.Freed?) && e.obj == o && w.control.tracepoints)
    || (e.Stopped? && w.control.created && w.control.running)
  }

  /** What an allocation says of its object. */
  predicate Reports(e: Input, a: Allocation)
    requires e.Allocated?
  {
    && a.path == e.path && a.line == e.line && a.methodId == e.methodId && a.generation == e.gcCount
    && a.classPath == (match e.definedClass
                       case OpenClass(cached) => cached
                       case _ => None)
  }

  lemma NextTable(w: World, e: Input, o: Obj)
    ensures var t := Next(w, e).table;
            if !Touches(w, e, o) then (o in t <==> o in w.table) && (o in t ==> t[o] == w.table[o])
            else if e.Allocated? then o in t && Reports(e, t[o])
            else o !in t
  {
  }

  /** The inputs that say something about an object. */
  function TouchedBy(batchSize: Positive, inputs: seq<Input>, o: Obj): nat -> bool {
    (i: nat) => i < |inputs| && Touches(After(batchSize, inputs[..i]), inputs[i], o)
  }

  lemma NextAt(batchSize: Positive, inputs: seq<Input>, i: nat)
    requires i < |inputs|
    ensures After(batchSize, inputs[..i + 1]) == Next(After(batchSize, inputs[..i]), inputs[i])
  {
    AfterSnoc(batchSize, inputs[..i], inputs[i]);
    assert inputs[..i + 1] == inputs[..i] + [inputs[i]];
  }

  lemma TableAt(batchSize: Positive, inputs: seq<Input>, o: Obj, i: nat)
    requires i < |inputs|
    ensures var t, before := After(batchSize, inputs[..i + 1]).table, After(batchSize, inputs[..i]).table;
            if !TouchedBy(batchSize, inputs, o)(i) then (o in t <==> o in before) && (o in t ==> t[o] == before[o])
            else if inputs[i].Allocated? then o in t && Reports(inputs[i], t[o])
            else o !in t
  {
    NextAt(batchSize, inputs, i);
    NextTable(After(batchSize, inputs[..i]), inputs[i], o);
  }

  /** The table says of an object what input i, the last one below n that touches it, says. */
  ghost predicate Agrees(table: map<Obj, Allocation>, inputs: seq<Input>, o: Obj, p: nat -> bool, n: nat)
    requires n <= |inputs|
  {
    && (o in table <==> exists i: nat :: Last(p, n, i) && inputs[i].Allocated?)
    && forall i: nat | Last(p, n, i) && inputs[i].Allocated? :: Reports(inputs[i], table[o])
  }

  lemma AgreesNext(before: map<Obj, Allocation>, t: map<Obj, Allocation>, inputs: seq<Input>, o: Obj, p: nat -> bool,
                   n: nat)
    requires n < |inputs| && Agrees(before, inputs, o, p, n)
    requires if !p(n) then (o in t <==> o in before) && (o in t ==> t[o] == before[o])
             else if inputs[n].Allocated? then o in t && Reports(inputs[n], t[o])
             else o !in t
    ensures Agrees(t, inputs, o, p, n + 1)
  {
    forall i: nat ensures Last(p, n + 1, i) <==> if p(n) then i == n else Last(p, n, i) {
      LastStep(p, n, i);
    }
    if p(n) {
      assert Last(p, n + 1, n);
    }
  }

  lemma AgreesAt(batchSize: Positive, inputs: seq<Input>, o: Obj, n: nat, before: map<Obj, Allocation>,
                 t: map<Obj, Allocation>, p: nat -> bool)
    requires n < |inputs| && p == TouchedBy(batchSize, inputs, o)
    requires before == After(batchSize, inputs[..n]).table && t == After(batchSize, inputs[..n + 1]).table
    requires Agrees(before, inputs, o, p, n)
    ensures Agrees(t, inputs, o, p, n + 1)
  {
    TableAt(batchSize, inputs, o, n);
    AgreesNext(before, t, inputs, o, p, n);
  }

  lemma AgreesAtFirst(batchSize: Positive, inputs: seq<Input>, o: Obj, t: map<Obj, Allocation>, p: nat -> bool)
    requires t == After(batchSize, inputs[..0]).table
    ensures Agrees(t, inputs, o, p, 0)
  {
    assert inputs[..0] == [];
    assert t == map[];
  }

  lemma {:induction false} TableAgrees(batchSize: Positive, inputs: seq<Input>, o: Obj, n: nat, p: nat -> bool,
                                       t: map<Obj, Allocation>)
    requires n <= |inputs| && p == TouchedBy(batchSize, inputs, o) && t == After(batchSize, inputs[..n]).table
    ensures Agrees(t, inputs, o, p, n)
  {
    if n == 0 {
      AgreesAtFirst(batchSize, inputs, o, t, p);
    } else {
      var before := After(batchSize, inputs[..n - 1]).table;
      TableAgrees(batchSize, inputs, o, n - 1, p, before);
      AgreesAt(batchSize, inputs, o, n - 1, before, t, p);
    }
  }

  /**
   The object table after any inputs: an object is in it exactly if the last input
   that says something about it is its allocation, and then it says what that
   allocation reported.
   */
  lemma TableLaw(batchSize: Positive, inputs: seq<Input>, o: Obj)
    ensures var p, table := TouchedBy(batchSize, inputs, o), After(batchSize, inputs).table;
            && (o in table <==> exists i: nat :: Last(p, |inputs|, i) && inputs[i].Allocated?)
            && forall i: nat | Last(p, |inputs|, i) && inputs[i].Allocated? :: Reports(inputs[i], table[o])
  {
    assert inputs[..|inputs|] == inputs;
    TableAgrees(batchSize, inputs, o, |inputs|, TouchedBy(batchSize, inputs, o), After(batchSize, inputs).table);
  }

  /** What an input adds to the record of queued items. */
  ghost predicate Adds(w: World, e: Input, item: Item) {
    match e
    case Requested(text, heap, clock) =>
      && w.control.running && text == "objectspace_snapshot"
      && item.Dump? && item.clock == clock && ShowsHeap(item.records, heap, w.table)
    case Allocated(_, _, _, _, _, _, id, className, ts) =>
      w.control.tracepoints && item == Other(ObjCreated(ts, id, className))
    case Freed(_, id, ts) => w.control.tracepoints && item == Other(ObjDestroyed(ts, id))
    case GcPhased(m) => w.control.tracepoints && item == Other(m)
    case GcStatsDue(hash, ts) =>
      && w.control.logger && item.Other? && item.m.HashMessage? && item.m.kind == GcStats && item.m.ts == ts
      && EntriesOf(item.m.entries, hash)
    case SampleDue(raw, ts) =>
      && w.control.samplePending && item.Other? && item.m.CpuSample? && item.m.ts == ts
      && FramesShow(item.m.frames, raw)
    case _ => false
  }

  lemma NextItems(w: World, e: Input)
    ensures var t := Next(w, e);
            || (|t.items| == |w.items| + 1 && t.items[..|w.items|] == w.items && Adds(w, e, t.items[|w.items|]))
            || (t.items == w.items && AddsNothing(w, e))
  {
    match e
    case Requested(text, heap, clock) =>
      RequestTexts(text);
      HeapShown(heap, w.table);
    case SampleDue(raw, _) => FramesShown(raw);
    case GcStatsDue(hash, _) => HashPairs(hash);
    case _ =>
  }

  ghost predicate AddsNothing(w: World, e: Input) {
    forall item :: !Adds(w, e, item)
  }

  /** Item k was added by input at[k], and the other inputs add nothing. */
  ghost predicate ItemsAt(at: seq<nat>, batchSize: Positive, inputs: seq<Input>, items: seq<Item>) {
    && Increasing(at) && |at| == |items|
    && (forall k | 0 <= k < |at| :: AddedAt(batchSize, inputs, at[k], items[k]))
    && (forall i: nat {:trigger Among(i, at)} | i < |inputs| && !Among(i, at) ::
          AddsNothing(After(batchSize, inputs[..i]), inputs[i]))
  }

  ghost predicate AddedAt(batchSize: Positive, inputs: seq<Input>, i: nat, item: Item) {
    i < |inputs| && Adds(After(batchSize, inputs[..i]), inputs[i], item)
  }

  /** What was added before was added in a longer run. */
  lemma ItemsSkip(at: seq<nat>, batchSize: Positive, inputs: seq<Input>, items: seq<Item>)
    requires inputs != [] && ItemsAt(at, batchSize, inputs[..|inputs| - 1], items)
    requires AddsNothing(After(batchSize, inputs[..|inputs| - 1]), inputs[|inputs| - 1])
    ensures ItemsAt(at, batchSize, inputs, items)
  {
    var front := inputs[..|inputs| - 1];
    forall i: nat | i < |front| ensures inputs[..i] == front[..i] {
    }
    assert forall k | 0 <= k < |at| :: AddedAt(batchSize, front, at[k], items[k]);
  }

  lemma ItemsTake(at: seq<nat>, batchSize: Positive, inputs: seq<Input>, items: seq<Item>, item: Item)
    requires inputs != [] && ItemsAt(at, batchSize, inputs[..|inputs| - 1], items)
    requires Adds(After(batchSize, inputs[..|inputs| - 1]), inputs[|inputs| - 1], item)
    ensures ItemsAt(at + [|inputs| - 1], batchSize, inputs, items + [item])
  {
    var front, at', all := inputs[..|inputs| - 1], at + [|inputs| - 1], items + [item];
    forall i: nat | i < |front| ensures inputs[..i] == front[..i] {
    }
    assert forall k | 0 <= k < |at| :: AddedAt(batchSize, front, at[k], items[k]);
    forall k | 0 <= k < |at'| ensures AddedAt(batchSize, inputs, at'[k], all[k]) {
    }
    forall i: nat | i < |inputs| && !Among(i, at') ensures AddsNothing(After(batchSize, inputs[..i]), inputs[i]) {
      assert at'[|at|] == |inputs| - 1 && !Among(i, at);
    }
  }

  /**
   The record after any inputs: one item, in order, for each input that adds one,
   saying what that input brought, and nothing else.
   */
  lemma {:induction false} ItemsLaw(batchSize: Positive, inputs: seq<Input>) returns (at: seq<nat>)
    ensures ItemsAt(at, batchSize, inputs, After(batchSize, inputs).items)
  {
    if inputs == [] {
      at := [];
    } else {
      var n := |inputs| - 1;
      var w := After(batchSize, inputs[..n]);
      at := ItemsLaw(batchSize, inputs[..n]);
      AfterSnoc(batchSize, inputs[..n], inputs[n]);
      assert inputs == inputs[..n] + [inputs[n]];
      at := ItemsStep(at, batchSize, inputs, w, After(batchSize, inputs).items);
    }
  }

  lemma ItemsStep(at: seq<nat>, batchSize: Positive, inputs: seq<Input>, w: World, items: seq<Item>)
    returns (at': seq<nat>)
    requires inputs != [] && w == After(batchSize, inputs[..|inputs| - 1])
    requires ItemsAt(at, batchSize, inputs[..|inputs| - 1], w.items)
    requires items == Next(w, inputs[|inputs| - 1]).items
    ensures ItemsAt(at', batchSize, inputs, items)
  {
    var n, e := |inputs| - 1, inputs[|inputs| - 1];
    NextItems(w, e);
    if items == w.items {
      ItemsSkip(at, batchSize, inputs, items);
      at' := at;
    } else {
      ItemsTake(at, batchSize, inputs, w.items, items[|w.items|]);
      assert items == w.items + [items[|w.items|]];
      at' := at + [n];
    }
  }

  /** Input i is a snapshot command to a running server, and the records show the heap and the table it met. */
  ghost predicate SnapshotAt(batchSize: Positive, inputs: seq<Input>, i: nat, records: seq<Record>) {
    && i < |inputs| && inputs[i].Requested? && inputs[i].text == "objectspace_snapshot"
    && After(batchSize, inputs[..i]).control.running
    && ShowsHeap(records, inputs[i].heap, After(batchSize, inputs[..i]).table)
  }

  lemma DumpsAreSnapshots(batchSize: Positive, inputs: seq<Input>, j: nat)
    requires j < |After(batchSize, inputs).items| && After(batchSize, inputs).items[j].Dump?
    ensures exists i: nat :: SnapshotAt(batchSize, inputs, i, After(batchSize, inputs).items[j].records)
  {
    var at := ItemsLaw(batchSize, inputs);
    assert AddedAt(batchSize, inputs, at[j], After(batchSize, inputs).items[j]);
    assert SnapshotAt(batchSize, inputs, at[j], After(batchSize, inputs).items[j].records);
  }
}
