/**
 The life of the server: the Rbkit module, the Ruby server object with its
 command loop, and the C logger, tracepoints, message list and profiler under
 it, as a state machine.
 */
module Lifecycle {
  import opened Wrappers
  import opened Sequences
  import opened SamplingProfiler

  /** A clock type as passed from Ruby; anything but a symbol is refused by the profiler. */
  datatype ClockName = Symbol(name: string) | NotASymbol

  datatype Mode = Sampling | OtherMode

  /** The options of start; None is nil. */
  datatype Options = Options(
    objectTrace: bool, gcStats: bool, cpuProfiling: bool,
    clockType: Option<ClockName>, mode: Option<Mode>, interval: Option<int>)

  datatype Request =
    | StartMemoryProfile | StopMemoryProfile | TriggerGc | ObjectspaceSnapshot | Handshake
    | UseCpuTime | UseWallTime | StartCpuProfiling | StopCpuProfiling | Unknown

  /** The command strings of process_incoming_request. */
  function RequestOf(text: string): Request {
    match text
    case "start_memory_profile" => StartMemoryProfile
    case "stop_memory_profile" => StopMemoryProfile
    case "trigger_gc" => TriggerGc
    case "objectspace_snapshot" => ObjectspaceSnapshot
    case "handshake" => Handshake
    case "use_cpu_time" => UseCpuTime
    case "use_wall_time" => UseWallTime
    case "start_cpu_profiling" => StartCpuProfiling
    case "stop_cpu_profiling" => StopCpuProfiling
    case _ => Unknown
  }

  datatype Reply =
    | Ack
    | Status(tracing: bool, profiling: bool, clockType: ClockName, mode: Mode)

  datatype Control = Control(
    // Rbkit and the Ruby server object
    created: bool, running: bool, clockType: ClockName, mode: Mode, interval: int, gcStats: bool,
    // the C logger
    logger: bool, enabled: bool, sampling: bool,
    // the VM's tracepoints, the message list, the profiler's static clock, the OS
    tracepoints: bool, listLive: bool, timer: Clock, os: OsState,
    // a sampling job registered by the signal handler
    samplePending: bool,
    // everything sent on the reply socket
    replies: seq<Reply>)

  datatype Op =
    | Start(options: Options, bound: bool)  // whether the sockets could be bound
    | Stop
    | Command(text: string)
    | Tracepoint      // an object is allocated or freed, or a collection phase ends
    | GcStatsTimer    // the dispatch loop's timer
    | TimerSignal     // an armed timer expires
    | SamplingJob     // the postponed job runs

  const INITIAL := Control(
    false, false, Symbol("cpu"), Sampling, 1000, false,
    false, false, false,
    false, false, ProfTimer, PRISTINE, false, [])

  // ----- the C functions

  function StartTracing(s: Control): Control {
    if s.enabled then s else s.(tracepoints := true, enabled := true)
  }

  function StopTracing(s: Control): Control {
    s.(tracepoints := false, enabled := false)
  }

  function IsWall(c: ClockName): bool {
    c == Symbol("wall")
  }

  /** FIX2INT raises for anything else. */
  predicate CInt(n: int) {
    -0x8000_0000 <= n < 0x8000_0000
  }

  /** start_sampling_profiler raises for a clock type that is not a symbol and for an interval that is no C int. */
  predicate SamplingRaises(s: Control) {
    !s.sampling && (s.clockType.NotASymbol? || !CInt(s.interval))
  }

  function StartSampling(s: Control): Control {
    if s.sampling || SamplingRaises(s) then s
    else
      var c := ClockFor(IsWall(s.clockType));
      s.(sampling := true, timer := c, os := Setitimer(Sigaction(s.os, SignalOf(c), Handled), c, s.interval))
  }

  function StopSampling(s: Control): Control {
    if !s.sampling then s
    else s.(sampling := false, os := Sigaction(Setitimer(s.os, s.timer, 0), SignalOf(s.timer), Ignored))
  }

  function StopStatServer(s: Control): Control {
    var t := if s.enabled then StopTracing(s) else s;
    t.(listLive := false, logger := false, enabled := false, sampling := false)
  }

  // ----- the Ruby methods

  function NewServer(s: Control): Control {
    if s.created then s
    else s.(created := true, running := false, clockType := Symbol("cpu"), mode := Sampling, interval := 1000,
            gcStats := false)
  }

  function GetOr<T>(o: Option<T>, default: T): T {
    if o.Some? then o.value else default
  }

  predicate Refused(s: Control, bound: bool) {
    NewServer(s).running || !bound
  }

  /** start_stat_server: a list and a logger. */
  function SetUp(s: Control): Control {
    NewServer(s).(listLive := true, logger := true)
  }

  /** What start does after that, up to the profiler. */
  function Configured(s: Control, o: Options): Control {
    var t := if o.objectTrace then StartTracing(s) else s;
    t.(mode := GetOr(o.mode, t.mode), clockType := GetOr(o.clockType, t.clockType),
       interval := GetOr(o.interval, t.interval))
  }

  function Prepared(s: Control, o: Options): Control {
    Configured(SetUp(s), o)
  }

  function StartProfiling(s: Control): Control {
    StartSampling(s.(mode := Sampling))
  }

  predicate ConfigureRaises(s: Control, o: Options) {
    o.cpuProfiling && SamplingRaises(Configured(s, o))
  }

  predicate StartRaises(s: Control, o: Options, bound: bool) {
    !Refused(s, bound) && ConfigureRaises(SetUp(s), o)
  }

  /** What start does with a logger and a list. */
  function Launched(s: Control, o: Options): Control {
    var t := if o.cpuProfiling then StartProfiling(Configured(s, o)) else Configured(s, o);
    if ConfigureRaises(s, o) then t else t.(gcStats := o.gcStats, running := true)
  }

  function DoStart(s: Control, o: Options, bound: bool): Control {
    if Refused(s, bound) then NewServer(s) else Launched(SetUp(s), o)
  }

  function DoStop(s: Control): Control {
    if !s.created || !s.running then s
    else
      var t := if s.mode == Sampling then StopSampling(s) else s;
      StopStatServer(t).(running := false, created := false)
  }

  predicate CommandRaises(s: Control, r: Request) {
    s.running && r == StartCpuProfiling && SamplingRaises(s)
  }

  function StatusOf(s: Control): Reply {
    Status(s.logger && s.enabled, s.logger && s.sampling, s.clockType, s.mode)
  }

  function Obey(s: Control, r: Request): Control {
    match r
    case StartMemoryProfile => StartTracing(s).(gcStats := true)
    case StopMemoryProfile => StopTracing(s).(gcStats := false)
    case UseCpuTime => s.(clockType := Symbol("cpu"))
    case UseWallTime => s.(clockType := Symbol("wall"))
    case StartCpuProfiling => StartProfiling(s)
    case StopCpuProfiling => if s.mode == Sampling then StopSampling(s) else s
    case _ => s
  }

  function DoCommand(s: Control, r: Request): Control {
    if !s.running then s
    else if r == Handshake then s.(replies := s.replies + [StatusOf(s)])
    else if CommandRaises(s, r) then Obey(s, r)
    else Obey(s, r).(replies := s.replies + [Ack])
  }

  function Step(s: Control, op: Op): Control {
    match op
    case Start(o, bound) => DoStart(s, o, bound)
    case Stop => DoStop(s)
    case Command(text) => DoCommand(s, RequestOf(text))
    case TimerSignal => if s.os.armed != {} then s.(samplePending := true) else s
    case SamplingJob => s.(samplePending := false)
    case _ => s
  }

  function Run(s: Control, ops: seq<Op>): Control {
    Fold(Step, s, ops)
  }

  // ----- the lifecycle invariant

  predicate Inv(s: Control) {
    && (s.running <==> s.logger) && (s.logger <==> s.listLive)
    && (s.running ==> s.created)
    && (s.tracepoints <==> s.enabled)
    && (s.enabled || s.sampling ==> s.logger)
    && (s.sampling ==> s.mode == Sampling)
    && Safe(s.os)
    && s.os.armed == (if s.sampling && ArmsTimer(s.interval) then {s.timer} else {})
  }

  /** The only step that leaves the machine half started. */
  predicate Raises(s: Control, op: Op) {
    op.Start? && StartRaises(s, op.options, op.bound)
  }

  lemma SamplingKeepsInv(s: Control)
    requires Inv(s) && s.logger
    ensures Inv(StartProfiling(s)) && Inv(StopSampling(s))
    ensures StopSampling(s).os.armed == {}
  {
  }

  lemma ObeyKeepsInv(s: Control, r: Request)
    requires Inv(s) && s.running
    ensures Inv(Obey(s, r))
  {
    match r
    case StartCpuProfiling => SamplingKeepsInv(s);
    case StopCpuProfiling => SamplingKeepsInv(s);
    case _ =>
  }

  lemma CommandKeepsInv(s: Control, r: Request)
    requires Inv(s)
    ensures Inv(DoCommand(s, r))
  {
    if s.running {
      ObeyKeepsInv(s, r);
    }
  }

  lemma StopKeepsInv(s: Control)
    requires Inv(s)
    ensures Inv(DoStop(s))
    ensures s.running ==> DoStop(s).os.armed == {} && !DoStop(s).listLive && !DoStop(s).tracepoints
  {
    if s.running {
      SamplingKeepsInv(s);
    }
  }

  lemma StartKeepsInvIff(s: Control, o: Options, bound: bool)
    requires Inv(s)
    ensures Inv(DoStart(s, o, bound)) <==> !StartRaises(s, o, bound)
  {
  }

  /**
   Every step keeps the invariant, except a start with cpu profiling on a clock
   type that is not a symbol or with an interval that is no C int: that one raises
   after the logger and the message list exist and before the server counts as
   running.
   */
  lemma StepKeepsInvIff(s: Control, op: Op)
    requires Inv(s)
    ensures Inv(Step(s, op)) <==> !Raises(s, op)
  {
    match op
    case Start(o, bound) => StartKeepsInvIff(s, o, bound);
    case Stop => StopKeepsInv(s);
    case Command(text) => CommandKeepsInv(s, RequestOf(text));
    case _ =>
  }

  predicate NeverRaises(s: Control, ops: seq<Op>) {
    ops == [] ||
    (NeverRaises(s, ops[..|ops| - 1]) && !Raises(Run(s, ops[..|ops| - 1]), ops[|ops| - 1]))
  }

  lemma {:induction false} RunKeepsInv(ops: seq<Op>)
    requires NeverRaises(INITIAL, ops)
    ensures Inv(Run(INITIAL, ops))
  {
    if ops != [] {
      RunKeepsInv(ops[..|ops| - 1]);
      StepKeepsInvIff(Run(INITIAL, ops[..|ops| - 1]), ops[|ops| - 1]);
    }
  }

  /**
   From no server: a start leaves a running one if and only if its sockets could be
   bound and it does not turn on profiling with a clock type that is not a symbol
   or an interval that is no C int; without sockets there is no logger and no list.
   */
  lemma StartOutcome(s: Control, o: Options, bound: bool)
    requires Inv(s) && !s.created
    ensures DoStart(s, o, bound).running <==>
              bound && !(o.cpuProfiling && (o.clockType == Some(NotASymbol)
                                            || (o.interval.Some? && !(-0x8000_0000 <= o.interval.value < 0x8000_0000))))
    ensures !bound ==> !DoStart(s, o, bound).logger && !DoStart(s, o, bound).listLive
    ensures bound ==> DoStart(s, o, bound).logger && DoStart(s, o, bound).listLive
  {
    ConfigureRaisesIff(SetUp(s), o);
    LaunchedParts(SetUp(s), o);
  }

  lemma ConfigureRaisesIff(s: Control, o: Options)
    requires !s.sampling && s.interval == 1000 && s.clockType.Symbol?
    ensures ConfigureRaises(s, o) <==>
              o.cpuProfiling && (o.clockType == Some(NotASymbol)
                                 || (o.interval.Some? && !(-0x8000_0000 <= o.interval.value < 0x8000_0000)))
  {
  }

  lemma LaunchedParts(s: Control, o: Options)
    ensures Launched(s, o).running <==> !ConfigureRaises(s, o) || s.running
    ensures Launched(s, o).logger == s.logger && Launched(s, o).listLive == s.listLive
  {
    ProfilingParts(Configured(s, o));
  }

  lemma ProfilingParts(s: Control)
    ensures StartProfiling(s).running == s.running
    ensures StartProfiling(s).logger == s.logger && StartProfiling(s).listLive == s.listLive
  {
  }

  /** A start while the server runs changes nothing. */
  lemma StartAgain(s: Control, o: Options, bound: bool)
    requires Inv(s) && s.running
    ensures DoStart(s, o, bound) == s
  {
  }

  // ----- the profiler's promise

  /**
   After every completed step a timer is armed exactly if profiling is on and
   the interval is one that setitimer accepts.
   */
  lemma ArmedIff(ops: seq<Op>)
    requires NeverRaises(INITIAL, ops)
    ensures var s := Run(INITIAL, ops); s.os.armed != {} <==> s.sampling && 0 < s.interval < 1_000_000
  {
    RunKeepsInv(ops);
  }

  /** An interval of one second is reported as profiling but samples nothing. */
  lemma OneSecondNeverSamples()
    ensures var o := Options(false, false, true, Some(Symbol("wall")), None, Some(1_000_000));
            var s := Step(INITIAL, Start(o, true));
            s.running && StatusOf(s).profiling && s.os.armed == {}
  {
  }

  /** A start that raises: logger and list exist, and the server does not run. */
  lemma StringClockType()
    ensures var o := Options(false, false, true, Some(NotASymbol), None, None);
            var s := Step(INITIAL, Start(o, true));
            s.logger && s.listLive && !s.running
  {
  }

  /** So does a start whose interval does not fit a C int. */
  lemma WideInterval()
    ensures var o := Options(false, false, true, None, None, Some(0x8000_0000));
            var s := Step(INITIAL, Start(o, true));
            s.logger && s.listLive && !s.running
  {
  }

  /** Whatever clock commands came in between, stop_cpu_profiling and stop disarm the clock in use. */
  lemma StopDisarms(s: Control, clocks: seq<Request>)
    requires Inv(s) && s.running && s.sampling
    requires forall r | r in clocks :: r == UseCpuTime || r == UseWallTime
    ensures var t := ObeyAll(s, clocks);
            && t.os == s.os && t.running && t.sampling
            && DoCommand(t, StopCpuProfiling).os.armed == {} && DoStop(t).os.armed == {}
  {
    ClocksOnlyRename(s, clocks);
    var t := ObeyAll(s, clocks);
    SamplingKeepsInv(t);
    StopKeepsInv(t);
  }

  function ObeyAll(s: Control, rs: seq<Request>): Control {
    Fold(DoCommand, s, rs)
  }

  lemma ClockCommand(s: Control, r: Request)
    requires Inv(s) && s.running && (r == UseCpuTime || r == UseWallTime)
    ensures var t := DoCommand(s, r); Inv(t) && t == s.(clockType := t.clockType, replies := t.replies)
  {
    CommandKeepsInv(s, r);
  }

  lemma {:induction false} ClocksOnlyRename(s: Control, clocks: seq<Request>)
    requires Inv(s) && s.running
    requires forall r | r in clocks :: r == UseCpuTime || r == UseWallTime
    ensures var t := ObeyAll(s, clocks); Inv(t) && t == s.(clockType := t.clockType, replies := t.replies)
  {
    if clocks != [] {
      var front := clocks[..|clocks| - 1];
      assert forall r | r in front :: r in clocks;
      ClocksOnlyRename(s, front);
      assert clocks[|clocks| - 1] in clocks;
      ClockCommand(ObeyAll(s, front), clocks[|clocks| - 1]);
    }
  }

  // ----- calls of queue_message

  /** Steps that put a message into the list. */
  predicate Queues(s: Control, op: Op) {
    match op
    case Tracepoint => s.tracepoints
    case GcStatsTimer => s.logger
    case SamplingJob => s.samplePending
    case Command(text) => s.running && RequestOf(text) == ObjectspaceSnapshot
    case _ => false
  }

  /** A stop that leaves a sampling job behind. */
  predicate LeavesJob(s: Control, op: Op) {
    op.Stop? && s.running && s.samplePending
  }

  predicate NeverLeavesJob(s: Control, ops: seq<Op>) {
    ops == [] ||
    (NeverLeavesJob(s, ops[..|ops| - 1]) && !LeavesJob(Run(s, ops[..|ops| - 1]), ops[|ops| - 1]))
  }

  /** A pending sampling job has a list to queue into. */
  predicate Provided(s: Control) {
    s.samplePending ==> s.listLive
  }

  /** Every message that a step could queue finds a list, whose capacity is then positive. */
  ghost predicate QueuesFindList(s: Control) {
    forall op | Queues(s, op) :: s.listLive
  }

  lemma ProvidedIff(s: Control)
    requires Inv(s)
    ensures Provided(s) <==> QueuesFindList(s)
  {
    assert Queues(s, SamplingJob) <==> s.samplePending;
  }

  lemma PreparedKeepsPending(s: Control, o: Options)
    ensures Prepared(s, o).samplePending == s.samplePending
  {
    assert NewServer(s).samplePending == s.samplePending;
  }

  lemma PreparedHasList(s: Control, o: Options)
    ensures Prepared(s, o).listLive
  {
  }

  lemma SamplingKeepsList(s: Control)
    ensures StartSampling(s).samplePending == s.samplePending && StartSampling(s).listLive == s.listLive
  {
  }

  lemma KeepsPending(s: Control, o: Options, bound: bool)
    requires Inv(s)
    ensures DoStart(s, o, bound).samplePending == s.samplePending
    ensures s.listLive ==> DoStart(s, o, bound).listLive
  {
    PreparedKeepsPending(s, o);
    PreparedHasList(s, o);
    SamplingKeepsList(Prepared(s, o).(mode := Sampling));
  }

  predicate SameList(s: Control, t: Control) {
    s.listLive == t.listLive && s.samplePending == t.samplePending
  }

  lemma ProfilingKeepsList(s: Control)
    ensures SameList(s, Obey(s, StartCpuProfiling)) && SameList(s, Obey(s, StopCpuProfiling))
  {
  }

  lemma TracingKeepsList(s: Control)
    ensures SameList(s, Obey(s, StartMemoryProfile)) && SameList(s, Obey(s, StopMemoryProfile))
  {
  }

  lemma CpuTimeKeepsList(s: Control)
    ensures SameList(s, Obey(s, UseCpuTime))
  {
  }

  lemma WallTimeKeepsList(s: Control)
    ensures SameList(s, Obey(s, UseWallTime))
  {
  }

  lemma ObeyKeepsList(s: Control, r: Request)
    ensures SameList(s, Obey(s, r))
  {
    ProfilingKeepsList(s);
    TracingKeepsList(s);
    CpuTimeKeepsList(s);
    WallTimeKeepsList(s);
    var t := Obey(s, r);
    assert r in {StartMemoryProfile, StopMemoryProfile, UseCpuTime, UseWallTime, StartCpuProfiling, StopCpuProfiling}
           || t == s;
  }

  lemma CommandKeepsList(s: Control, r: Request)
    ensures DoCommand(s, r).samplePending == s.samplePending && DoCommand(s, r).listLive == s.listLive
  {
    if s.running && r != Handshake {
      ObeyKeepsList(s, r);
    }
  }

  /** A step takes the list away from a pending job exactly if it is a stop that leaves the job behind. */
  lemma StepProvidesIff(s: Control, op: Op)
    requires Inv(s) && Inv(Step(s, op)) && Provided(s)
    ensures Provided(Step(s, op)) <==> !LeavesJob(s, op)
  {
    match op
    case Start(o, bound) => KeepsPending(s, o, bound);
    case Command(text) => CommandKeepsList(s, RequestOf(text));
    case Stop => StopKeepsInv(s);
    case _ =>
  }

  /** In every state of the run, whatever step may come next, a message it queues finds a list. */
  ghost predicate AlwaysProvided(ops: seq<Op>) {
    forall i {:trigger Run(INITIAL, ops[..i])} | 0 <= i <= |ops| :: QueuesFindList(Run(INITIAL, ops[..i]))
  }

  lemma AlwaysProvidedSnoc(ops: seq<Op>)
    requires ops != []
    ensures AlwaysProvided(ops) <==> AlwaysProvided(ops[..|ops| - 1]) && QueuesFindList(Run(INITIAL, ops))
  {
    var front := ops[..|ops| - 1];
    assert ops[..|ops|] == ops;
    assert forall i | 0 <= i <= |front| :: front[..i] == ops[..i];
  }

  /**
   In every run without a start that raises, a call of queue_message is bound to
   find a list at every point if and only if no stop leaves a sampling job pending.
   */
  lemma {:induction false} QueuesFindListIff(ops: seq<Op>)
    requires NeverRaises(INITIAL, ops)
    ensures AlwaysProvided(ops) <==> NeverLeavesJob(INITIAL, ops)
  {
    RunKeepsInv(ops);
    ProvidedIff(Run(INITIAL, ops));
    if ops == [] {
      assert forall i | 0 <= i <= |ops| :: ops[..i] == [];
    } else {
      var front := ops[..|ops| - 1];
      QueuesFindListIff(front);
      AlwaysProvidedSnoc(ops);
      RunKeepsInv(front);
      ProvidedIff(Run(INITIAL, front));
      LastProvided(front);
      if QueuesFindList(Run(INITIAL, front)) {
        StepProvidesIff(Run(INITIAL, front), ops[|ops| - 1]);
      }
    }
  }

  lemma LastProvided(ops: seq<Op>)
    ensures AlwaysProvided(ops) ==> QueuesFindList(Run(INITIAL, ops))
  {
    assert ops[..|ops|] == ops;
  }

  /** Profiling, a timer signal and a stop: the sampling job then queues into the destroyed list, of capacity 0. */
  lemma SampleAfterStop()
    ensures var ops := [Start(Options(false, false, true, None, None, None), true), TimerSignal] + [Stop];
            var s := Run(INITIAL, ops);
            && NeverRaises(INITIAL, ops) && !NeverLeavesJob(INITIAL, ops)
            && Queues(s, SamplingJob) && !s.listLive
  {
    var start, o := Start(Options(false, false, true, None, None, None), true),
                    Options(false, false, true, None, None, None);
    RunSnoc([], start);
    RunSnoc([start], TimerSignal);
    RunSnoc([start, TimerSignal], Stop);
    assert [] + [start] == [start] && [start] + [TimerSignal] == [start, TimerSignal];
  }

  lemma RunSnoc(ops: seq<Op>, op: Op)
    ensures Run(INITIAL, ops + [op]) == Step(Run(INITIAL, ops), op)
    ensures NeverRaises(INITIAL, ops + [op]) <==> NeverRaises(INITIAL, ops) && !Raises(Run(INITIAL, ops), op)
    ensures NeverLeavesJob(INITIAL, ops + [op]) <==> NeverLeavesJob(INITIAL, ops) && !LeavesJob(Run(INITIAL, ops), op)
  {
    assert (ops + [op])[..|ops|] == ops;
  }

  /** What never happens in a run never happens in its beginning. */
  lemma {:induction false} NeverBefore(a: seq<Op>, b: seq<Op>)
    ensures NeverRaises(INITIAL, a + b) ==> NeverRaises(INITIAL, a)
    ensures NeverLeavesJob(INITIAL, a + b) ==> NeverLeavesJob(INITIAL, a)
  {
    if b == [] {
      assert a + b == a;
    } else {
      var n := |b| - 1;
      NeverBefore(a, b[..n]);
      assert a + b == a + b[..n] + [b[n]];
      RunSnoc(a + b[..n], b[n]);
    }
  }

  /** The steps that register a sampling job, as an armed timer expires, or use one up. */
  function ConcernsJob(ops: seq<Op>): nat -> bool {
    (i: nat) =>
      i < |ops| && (ops[i] == SamplingJob || (ops[i] == TimerSignal && Run(INITIAL, ops[..i]).os.armed != {}))
  }

  lemma StepPending(s: Control, op: Op)
    requires Inv(s)
    ensures Step(s, op).samplePending == if op == SamplingJob then false
                                         else if op == TimerSignal && s.os.armed != {} then true
                                         else s.samplePending
  {
    match op
    case Start(o, bound) => KeepsPending(s, o, bound);
    case Command(text) => CommandKeepsList(s, RequestOf(text));
    case _ =>
  }

  lemma NeverRaisesBefore(ops: seq<Op>, n: nat)
    requires n <= |ops| && NeverRaises(INITIAL, ops)
    ensures NeverRaises(INITIAL, ops[..n])
  {
    assert ops == ops[..n] + ops[n..];
    NeverBefore(ops[..n], ops[n..]);
  }

  lemma PendingNext(ops: seq<Op>, p: nat -> bool, n: nat, before: bool, after: bool)
    requires n < |ops| && (before <==> exists i: nat :: Last(p, n, i) && ops[i] == TimerSignal)
    requires after == if p(n) then ops[n] == TimerSignal else before
    ensures after <==> exists i: nat :: Last(p, n + 1, i) && ops[i] == TimerSignal
  {
    forall i: nat ensures Last(p, n + 1, i) <==> if p(n) then i == n else Last(p, n, i) {
      LastStep(p, n, i);
    }
    if p(n) {
      assert Last(p, n + 1, n);
    }
  }

  /**
   A sampling job is registered exactly if an armed timer has expired since the last
   one ran: each expiry leads to at most one sample, and none is taken twice.
   */
  lemma {:induction false} PendingLaw(ops: seq<Op>, p: nat -> bool, n: nat)
    requires NeverRaises(INITIAL, ops) && n <= |ops| && p == ConcernsJob(ops)
    ensures Run(INITIAL, ops[..n]).samplePending <==> exists i: nat :: Last(p, n, i) && ops[i] == TimerSignal
  {
    if n == 0 {
      assert ops[..0] == [];
    } else {
      var s := Run(INITIAL, ops[..n - 1]);
      PendingLaw(ops, p, n - 1);
      NeverRaisesBefore(ops, n - 1);
      RunKeepsInv(ops[..n - 1]);
      RunSnoc(ops[..n - 1], ops[n - 1]);
      assert ops[..n] == ops[..n - 1] + [ops[n - 1]];
      StepPending(s, ops[n - 1]);
      PendingNext(ops, p, n - 1, s.samplePending, Run(INITIAL, ops[..n]).samplePending);
    }
  }

  // ----- requests and replies

  /** One reply per command, unless the command raises. */
  lemma OneReplyIff(s: Control, r: Request)
    requires Inv(s) && s.running
    ensures |DoCommand(s, r).replies| == |s.replies| + 1 <==> !CommandRaises(s, r)
  {
  }

  /** A start without profiling and a later start_cpu_profiling, on a clock type that is not a symbol: no reply. */
  lemma UnansweredCommand()
    ensures var o := Options(false, false, false, Some(NotASymbol), None, None);
            var s := Step(INITIAL, Start(o, true));
            && s.running && Inv(s)
            && Step(s, Command("start_cpu_profiling")).replies == s.replies
  {
  }

  /** Which command a text is: nine texts are known, and any other is answered and otherwise ignored. */
  lemma RequestTexts(text: string)
    ensures RequestOf(text) == StartMemoryProfile <==> text == "start_memory_profile"
    ensures RequestOf(text) == StopMemoryProfile <==> text == "stop_memory_profile"
    ensures RequestOf(text) == TriggerGc <==> text == "trigger_gc"
    ensures RequestOf(text) == ObjectspaceSnapshot <==> text == "objectspace_snapshot"
    ensures RequestOf(text) == Handshake <==> text == "handshake"
    ensures RequestOf(text) == UseCpuTime <==> text == "use_cpu_time"
    ensures RequestOf(text) == UseWallTime <==> text == "use_wall_time"
    ensures RequestOf(text) == StartCpuProfiling <==> text == "start_cpu_profiling"
    ensures RequestOf(text) == StopCpuProfiling <==> text == "stop_cpu_profiling"
  {
    assert "start_cpu_profiling"[2] != "stop_memory_profile"[2];
    assert "start_memory_profile"[0] != "objectspace_snapshot"[0];
  }

  // What a client may expect, by the texts it sent; the options speak for no text at all.

  /** Whether tracing is on after some commands: the last command about it decides. */
  function TracingAfter(o: Options, texts: seq<string>): bool {
    if texts == [] then o.objectTrace
    else
      match texts[|texts| - 1]
      case "start_memory_profile" => true
      case "stop_memory_profile" => false
      case _ => TracingAfter(o, texts[..|texts| - 1])
  }

  function ProfilingAfter(o: Options, texts: seq<string>): bool {
    if texts == [] then o.cpuProfiling
    else
      match texts[|texts| - 1]
      case "start_cpu_profiling" => true
      case "stop_cpu_profiling" => false
      case _ => ProfilingAfter(o, texts[..|texts| - 1])
  }

  function ClockAfter(o: Options, texts: seq<string>): ClockName {
    if texts == [] then GetOr(o.clockType, Symbol("cpu"))
    else
      match texts[|texts| - 1]
      case "use_cpu_time" => Symbol("cpu")
      case "use_wall_time" => Symbol("wall")
      case _ => ClockAfter(o, texts[..|texts| - 1])
  }

  function GcStatsAfter(o: Options, texts: seq<string>): bool {
    if texts == [] then o.gcStats
    else
      match texts[|texts| - 1]
      case "start_memory_profile" => true
      case "stop_memory_profile" => false
      case _ => GcStatsAfter(o, texts[..|texts| - 1])
  }

  /** The timers that a clock type and the interval of the options stand for. */
  function TimersFor(o: Options, c: ClockName): set<Clock> {
    if !(0 < GetOr(o.interval, 1000) < 1_000_000) then {}
    else if c == Symbol("wall") then {RealTimer}
    else {ProfTimer}
  }

  /** The armed timers: those of the clock type that was set when profiling last went from off to on. */
  function TimersAfter(o: Options, texts: seq<string>): set<Clock> {
    if texts == [] then (if o.cpuProfiling then TimersFor(o, GetOr(o.clockType, Symbol("cpu"))) else {})
    else
      var before := texts[..|texts| - 1];
      match texts[|texts| - 1]
      case "stop_cpu_profiling" => {}
      case "start_cpu_profiling" =>
        if ProfilingAfter(o, before) then TimersAfter(o, before) else TimersFor(o, ClockAfter(o, before))
      case _ => TimersAfter(o, before)
  }

  /** Starting the profiler selects the sampling mode. */
  function ModeAfter(o: Options, texts: seq<string>): Mode {
    if texts == [] then (if o.cpuProfiling then Sampling else GetOr(o.mode, Sampling))
    else if texts[|texts| - 1] == "start_cpu_profiling" then Sampling
    else ModeAfter(o, texts[..|texts| - 1])
  }

  /** The replies a client is owed. */
  function Owed(o: Options, texts: seq<string>): seq<Reply> {
    if texts == [] then []
    else
      var before := texts[..|texts| - 1];
      Owed(o, before) +
      [if texts[|texts| - 1] == "handshake"
       then Status(TracingAfter(o, before), ProfilingAfter(o, before), ClockAfter(o, before), ModeAfter(o, before))
       else Ack]
  }

  /** A symbol and a C int. */
  predicate Profilable(c: ClockName, interval: int) {
    c.Symbol? && -0x8000_0000 <= interval <= 0x7fff_ffff
  }

  /** Whether start_cpu_profiling is accepted after some commands. */
  predicate CanProfile(o: Options, texts: seq<string>) {
    ProfilingAfter(o, texts) || Profilable(ClockAfter(o, texts), GetOr(o.interval, 1000))
  }

  predicate Accepted(o: Options, texts: seq<string>, text: string) {
    text == "start_cpu_profiling" ==> CanProfile(o, texts)
  }

  /** Neither the start nor any of the commands raises. */
  predicate Answerable(o: Options, texts: seq<string>) {
    if texts == [] then o.cpuProfiling ==> Profilable(GetOr(o.clockType, Symbol("cpu")), GetOr(o.interval, 1000))
    else Answerable(o, texts[..|texts| - 1]) && Accepted(o, texts[..|texts| - 1], texts[|texts| - 1])
  }

  /** The flags that a start and some commands amount to. */
  predicate FlagsFolded(s: Control, o: Options, texts: seq<string>) {
    && s.running && Inv(s)
    && s.enabled == TracingAfter(o, texts) && s.sampling == ProfilingAfter(o, texts)
    && s.clockType == ClockAfter(o, texts) && s.mode == ModeAfter(o, texts)
    && s.gcStats == GcStatsAfter(o, texts) && s.interval == GetOr(o.interval, 1000)
  }

  /** The state after a start and some commands, as their fold. */
  predicate Folded(s: Control, o: Options, texts: seq<string>, earlier: seq<Reply>) {
    FlagsFolded(s, o, texts) && s.replies == earlier + Owed(o, texts) && s.os.armed == TimersAfter(o, texts)
  }

  lemma StartFolds(s: Control, o: Options)
    requires Inv(s) && !s.created && Answerable(o, [])
    ensures Folded(DoStart(s, o, true), o, [], s.replies)
  {
    StartKeepsInvIff(s, o, true);
    assert s.replies + [] == s.replies;
  }

  lemma FlagsFold(s: Control, o: Options, texts: seq<string>, text: string)
    requires FlagsFolded(s, o, texts) && Accepted(o, texts, text)
    ensures FlagsFolded(DoCommand(s, RequestOf(text)), o, texts + [text])
  {
    RequestTexts(text);
    CommandKeepsInv(s, RequestOf(text));
    assert (texts + [text])[..|texts|] == texts;
  }

  lemma RepliesFold(s: Control, o: Options, texts: seq<string>, text: string, earlier: seq<Reply>)
    requires Folded(s, o, texts, earlier) && Accepted(o, texts, text)
    ensures DoCommand(s, RequestOf(text)).replies == earlier + Owed(o, texts + [text])
  {
    RequestTexts(text);
    assert (texts + [text])[..|texts|] == texts;
    assert !CommandRaises(s, RequestOf(text));
  }

  lemma TimersFold(s: Control, o: Options, texts: seq<string>, text: string)
    requires FlagsFolded(s, o, texts) && s.os.armed == TimersAfter(o, texts) && Accepted(o, texts, text)
    ensures DoCommand(s, RequestOf(text)).os.armed == TimersAfter(o, texts + [text])
  {
    RequestTexts(text);
    assert (texts + [text])[..|texts|] == texts;
    if RequestOf(text) == StopCpuProfiling {
      SamplingKeepsInv(s);
    }
  }

  lemma CommandFolds(s: Control, o: Options, texts: seq<string>, text: string, earlier: seq<Reply>)
    requires Folded(s, o, texts, earlier) && Accepted(o, texts, text)
    ensures Folded(DoCommand(s, RequestOf(text)), o, texts + [text], earlier)
  {
    FlagsFold(s, o, texts, text);
    RepliesFold(s, o, texts, text, earlier);
    TimersFold(s, o, texts, text);
  }

  /** Everything but a start or a stop may come between the two. */
  predicate Between(op: Op) {
    !op.Start? && !op.Stop?
  }

  function TextIn(op: Op): seq<string> {
    if op.Command? then [op.text] else []
  }

  /** The texts of the commands of a run. */
  function TextsOf(ops: seq<Op>): seq<string> {
    FlatMap(TextIn, ops)
  }

  lemma StepFolds(s: Control, o: Options, texts: seq<string>, op: Op, earlier: seq<Reply>)
    requires Folded(s, o, texts, earlier) && Between(op) && Answerable(o, texts + TextIn(op))
    ensures Folded(Step(s, op), o, texts + TextIn(op), earlier)
  {
    if op.Command? {
      assert (texts + [op.text])[..|texts|] == texts;
      CommandFolds(s, o, texts, op.text, earlier);
    } else {
      assert texts + [] == texts;
    }
  }

  lemma AnswerableBefore(o: Options, texts: seq<string>, op: Op)
    requires Answerable(o, texts + TextIn(op))
    ensures Answerable(o, texts)
  {
    if op.Command? {
      assert (texts + [op.text])[..|texts|] == texts;
    } else {
      assert texts + [] == texts;
    }
  }

  /**
   Request and reply: after a start, with tracepoints, timers, signals and sampling
   jobs in between, any command texts none of which raises get exactly one reply
   each, in order: the status for a handshake, saying what the options and the
   texts before it amount to, and "ok" for everything else. The armed timers are
   those of the clock type that was set when profiling last went on.
   */
  lemma {:induction false} RequestReply(s: Control, o: Options, ops: seq<Op>)
    requires Inv(s) && !s.created && (forall op | op in ops :: Between(op)) && Answerable(o, TextsOf(ops))
    ensures Folded(Run(DoStart(s, o, true), ops), o, TextsOf(ops), s.replies)
    ensures |Owed(o, TextsOf(ops))| == |TextsOf(ops)|
  {
    OneOwedEach(o, TextsOf(ops));
    if ops == [] {
      StartFolds(s, o);
    } else {
      var front, op := ops[..|ops| - 1], ops[|ops| - 1];
      assert op in ops && forall x | x in front :: x in ops;
      AnswerableBefore(o, TextsOf(front), op);
      RequestReply(s, o, front);
      StepFolds(Run(DoStart(s, o, true), front), o, TextsOf(front), op, s.replies);
    }
  }

  lemma {:induction false} OneOwedEach(o: Options, texts: seq<string>)
    ensures |Owed(o, texts)| == |texts|
  {
    if texts != [] {
      OneOwedEach(o, texts[..|texts| - 1]);
    }
  }

  lemma StepRepliesAtMost(s: Control, op: Op)
    requires Inv(s) && s.running && Between(op)
    ensures var t := Step(s, op);
            Inv(t) && t.running && |t.replies| <= |s.replies| + |TextIn(op)|
  {
    if op.Command? {
      CommandKeepsInv(s, RequestOf(op.text));
    }
  }

  lemma UnacceptedStaysUnanswered(s: Control, o: Options, texts: seq<string>, op: Op)
    requires FlagsFolded(s, o, texts) && Answerable(o, texts) && op.Command? && !Answerable(o, texts + TextIn(op))
    ensures Step(s, op).replies == s.replies
  {
    assert (texts + [op.text])[..|texts|] == texts;
    RequestTexts(op.text);
    assert CommandRaises(s, RequestOf(op.text));
  }

  /**
   Every command is answered if and only if none of them is a start_cpu_profiling
   that the clock type of the moment or the interval makes raise.
   */
  lemma {:induction false} AllAnsweredIff(s: Control, o: Options, ops: seq<Op>)
    requires Inv(s) && !s.created && (forall op | op in ops :: Between(op)) && Answerable(o, [])
    ensures var t, owed := Run(DoStart(s, o, true), ops), |s.replies| + |TextsOf(ops)|;
            && Inv(t) && t.running && |t.replies| <= owed
            && (|t.replies| == owed <==> Answerable(o, TextsOf(ops)))
  {
    if ops == [] {
      StartFolds(s, o);
    } else {
      var front, op := ops[..|ops| - 1], ops[|ops| - 1];
      assert op in ops && forall x | x in front :: x in ops;
      AllAnsweredIff(s, o, front);
      var t, texts := Run(DoStart(s, o, true), front), TextsOf(front);
      StepRepliesAtMost(t, op);
      if Answerable(o, texts) {
        RequestReply(s, o, front);
        if Answerable(o, texts + TextIn(op)) {
          StepFolds(t, o, texts, op, s.replies);
          OneOwedEach(o, texts + TextIn(op));
        } else {
          assert !op.Command? ==> texts + [] == texts;
          UnacceptedStaysUnanswered(t, o, texts, op);
        }
      } else if Answerable(o, texts + TextIn(op)) {
        AnswerableBefore(o, texts, op);
      }
    }
  }
}
