/**
 The batching protocol above the message list, as a state machine: messages are
 queued, a postponed job is registered when the queue reaches the batch size or
 the dispatch timer fires, the job publishes everything queued and then clears.
 The publish callback runs Ruby code between the two halves of a job, so any
 other step may happen there, except another job.
 */
module PublishProtocol {
  import opened MessagePack
  import opened Messages
  import opened Sequences
  import opened Collections

  const MESSAGE_BATCH_SIZE: nat := 400

  /** What became of a stretch of the queued stream. */
  datatype Chunk =
    | Published(number: nat, messages: seq<Message>)
    | Dropped(messages: seq<Message>)    // queued while a job was between packing and clearing
    | Discarded(messages: seq<Message>)  // still queued when the list was destroyed or made anew

  datatype State = State(
    live: bool,             // the message list exists
    list: seq<Message>,     // its contents
    testMode: bool,
    pending: nat,           // registered publish jobs
    running: bool,          // a job has published but not yet cleared
    packed: nat,            // how much of the list that job published
    next: nat,              // the number of the next collection
    history: seq<Chunk>,
    stream: seq<Message>)   // everything ever queued

  datatype Op =
    | Send(m: Message)
    | Timer
    | BeginJob
    | EndJob
    | SetTestMode(on: bool)
    | StartServer
    | StopServer

  const INITIAL := State(false, [], false, 0, false, 0, 0, [], [])

  /** send_messages: registers a job, except in test mode. */
  function Register(s: State): State {
    if s.testMode then s else s.(pending := s.pending + 1)
  }

  function Unless(empty: bool, c: Chunk): seq<Chunk> {
    if empty then [] else [c]
  }

  /** message_list_new and message_list_destroy: whatever is queued is forgotten. */
  function Renew(s: State, live: bool): State {
    if s.packed > |s.list| then s
    else
      var unsent := s.list[s.packed..];
      s.(live := live, list := [], packed := 0, history := s.history + Unless(unsent == [], Discarded(unsent)))
  }

  /** A step that cannot happen in a state leaves it as it is. */
  function Step(s: State, op: Op): State {
    match op
    case Send(m) =>
      if !s.live then s
      else
        var t := s.(list := s.list + [m], stream := s.stream + [m]);
        if |t.list| == MESSAGE_BATCH_SIZE then Register(t) else t
    case Timer => Register(s)
    case BeginJob =>
      if s.running || s.pending == 0 then s
      else if s.list == [] then s.(pending := s.pending - 1)
      else s.(pending := s.pending - 1, running := true, packed := |s.list|,
              next := NextNumber(s.next), history := s.history + [Published(s.next, s.list)])
    case EndJob =>
      if !s.running || s.packed > |s.list| then s
      else
        var late := s.list[s.packed..];
        s.(running := false, packed := 0, list := [], history := s.history + Unless(late == [], Dropped(late)))
    case SetTestMode(on) => s.(testMode := on)
    case StartServer => Renew(s, true)
    case StopServer => if s.live then Renew(s, false) else s
  }

  function Run(s: State, ops: seq<Op>): State {
    Fold(Step, s, ops)
  }

  // ----- readings of a history

  function Flatten(h: seq<Chunk>): seq<Message> {
    if h == [] then [] else Flatten(h[..|h| - 1]) + h[|h| - 1].messages
  }

  /** The published collections: number and messages, in order. */
  function Publications(h: seq<Chunk>): seq<(nat, seq<Message>)> {
    if h == [] then []
    else
      var last := h[|h| - 1];
      Publications(h[..|h| - 1]) + (if last.Published? then [(last.number, last.messages)] else [])
  }

  function Joined(ps: seq<(nat, seq<Message>)>): seq<Message> {
    if ps == [] then [] else Joined(ps[..|ps| - 1]) + ps[|ps| - 1].1
  }

  /** What subscribers received, in order. */
  function Delivered(h: seq<Chunk>): seq<Message> {
    Joined(Publications(h))
  }

  /** How many messages were dropped or discarded. */
  function LostCount(h: seq<Chunk>): nat {
    if h == [] then 0
    else LostCount(h[..|h| - 1]) + (if h[|h| - 1].Published? then 0 else |h[|h| - 1].messages|)
  }

  /** Queued and not yet published. */
  function Unsent(s: State): seq<Message>
    requires s.packed <= |s.list|
  {
    s.list[s.packed..]
  }

  predicate Inv(s: State) {
    && s.packed <= |s.list|
    && (!s.running ==> s.packed == 0)
    && (!s.live ==> s.list == [])
    && s.next < TWO_64
    && s.stream == Flatten(s.history) + Unsent(s)
  }

  lemma Snoc(h: seq<Chunk>, c: Chunk)
    ensures Flatten(h + [c]) == Flatten(h) + c.messages
    ensures Publications(h + [c]) == Publications(h) + (if c.Published? then [(c.number, c.messages)] else [])
    ensures Delivered(h + [c]) == Delivered(h) + (if c.Published? then c.messages else [])
    ensures LostCount(h + [c]) == LostCount(h) + (if c.Published? then 0 else |c.messages|)
  {
    assert (h + [c])[..|h|] == h;
    if c.Published? {
      assert (Publications(h) + [(c.number, c.messages)])[..|Publications(h)|] == Publications(h);
    } else {
      assert Publications(h) + [] == Publications(h);
    }
  }

  lemma NoChunk(h: seq<Chunk>)
    ensures h + [] == h
  {
  }

  lemma SendKeepsInv(s: State, m: Message)
    requires Inv(s)
    ensures Inv(Step(s, Send(m)))
  {
    assert s.live ==> (s.list + [m])[s.packed..] == Unsent(s) + [m];
  }

  lemma BeginJobKeepsInv(s: State)
    requires Inv(s)
    ensures Inv(Step(s, BeginJob))
  {
    Snoc(s.history, Published(s.next, s.list));
    assert s.list[|s.list|..] == [];
    assert s.list[0..] == s.list;
  }

  lemma BeginJobPublishes(s: State)
    requires Inv(s) && s.pending > 0 && !s.running
    ensures var t := Step(s, BeginJob);
            && Inv(t) && t.list == s.list && t.live == s.live && t.testMode == s.testMode && t.pending == s.pending - 1
            && t.next == (if s.list == [] then s.next else NextNumber(s.next))
            && t.running == (s.list != [])
            && Publications(t.history) == Publications(s.history) + (if s.list == [] then [] else [(s.next, s.list)])
  {
    BeginJobKeepsInv(s);
    Snoc(s.history, Published(s.next, s.list));
    assert s.list == [] ==> Publications(s.history) + [] == Publications(s.history);
  }

  lemma EndJobKeepsInv(s: State)
    requires Inv(s)
    ensures Inv(Step(s, EndJob))
  {
    Snoc(s.history, Dropped(Unsent(s)));
    NoChunk(s.history);
  }

  lemma RenewKeepsInv(s: State, live: bool)
    requires Inv(s)
    ensures Inv(Renew(s, live))
  {
    Snoc(s.history, Discarded(Unsent(s)));
    NoChunk(s.history);
  }

  lemma EndJobPublishesNothing(s: State)
    requires Inv(s)
    ensures var t := Step(s, EndJob);
            && Inv(t) && t.live == s.live && t.testMode == s.testMode && t.pending == s.pending && t.next == s.next
            && t.list == (if s.running then [] else s.list) && Publications(t.history) == Publications(s.history)
  {
    EndJobKeepsInv(s);
    Snoc(s.history, Dropped(Unsent(s)));
    NoChunk(s.history);
  }

  lemma RenewPublishesNothing(s: State, live: bool)
    requires Inv(s)
    ensures var t := Renew(s, live);
            && Inv(t) && t.live == live && t.list == [] && t.testMode == s.testMode && t.pending == s.pending
            && t.next == s.next && t.running == s.running && t.stream == s.stream
            && Publications(t.history) == Publications(s.history)
  {
    RenewKeepsInv(s, live);
    Snoc(s.history, Discarded(Unsent(s)));
    NoChunk(s.history);
  }

  lemma StepKeepsInv(s: State, op: Op)
    requires Inv(s)
    ensures Inv(Step(s, op))
  {
    match op
    case Send(m) => SendKeepsInv(s, m);
    case BeginJob => BeginJobKeepsInv(s);
    case EndJob => EndJobKeepsInv(s);
    case StartServer => RenewKeepsInv(s, true);
    case StopServer => RenewKeepsInv(s, false);
    case _ =>
  }

  /**
   Conservation: in every run the queued stream is, in order, the published
   messages, the dropped and discarded ones where they fell, and the unsent ones.
   */
  lemma {:induction false} Conservation(ops: seq<Op>)
    ensures Inv(Run(INITIAL, ops))
  {
    if ops != [] {
      Conservation(ops[..|ops| - 1]);
      StepKeepsInv(Run(INITIAL, ops[..|ops| - 1]), ops[|ops| - 1]);
    }
  }

  /** Publication i is numbered i, modulo the width of the counter, and the next one follows on. */
  predicate GapFree(s: State) {
    && s.next == |Publications(s.history)| % TWO_64
    && forall i | 0 <= i < |Publications(s.history)| :: Publications(s.history)[i].0 == i % TWO_64
  }

  lemma NextNumberIsNext(n: nat)
    ensures NextNumber(n % TWO_64) == (n + 1) % TWO_64
  {
  }

  lemma BeginJobKeepsGapFree(s: State)
    requires Inv(s) && GapFree(s)
    ensures GapFree(Step(s, BeginJob))
  {
    if s.pending > 0 && !s.running {
      BeginJobPublishes(s);
      NextNumberIsNext(|Publications(s.history)|);
    }
  }

  lemma LossKeepsGapFree(s: State, t: State, c: Chunk)
    requires GapFree(s) && !c.Published? && t.next == s.next
    requires t.history == s.history || t.history == s.history + [c]
    ensures GapFree(t)
  {
    Snoc(s.history, c);
  }

  lemma StepKeepsGapFree(s: State, op: Op)
    requires Inv(s) && GapFree(s)
    ensures GapFree(Step(s, op))
  {
    NoChunk(s.history);
    match op
    case BeginJob => BeginJobKeepsGapFree(s);
    case EndJob => LossKeepsGapFree(s, Step(s, op), Dropped(Unsent(s)));
    case StartServer => LossKeepsGapFree(s, Step(s, op), Discarded(Unsent(s)));
    case StopServer => LossKeepsGapFree(s, Step(s, op), Discarded(Unsent(s)));
    case _ =>
  }

  /** Gap-free numbering: over any run the published collections are numbered 0, 1, 2, ... */
  lemma {:induction false} Numbering(ops: seq<Op>)
    ensures GapFree(Run(INITIAL, ops))
  {
    if ops != [] {
      Conservation(ops[..|ops| - 1]);
      Numbering(ops[..|ops| - 1]);
      StepKeepsGapFree(Run(INITIAL, ops[..|ops| - 1]), ops[|ops| - 1]);
    }
  }

  // ----- when is nothing lost?

  /** A step that loses messages, as its caller can see beforehand. */
  predicate Harmless(s: State, op: Op) {
    match op
    case Send(_) => !(s.live && s.running)
    case StartServer => s.running || s.list == []
    case StopServer => s.running || s.list == []
    case _ => true
  }

  predicate AllHarmless(s: State, ops: seq<Op>) {
    ops == [] ||
    (AllHarmless(s, ops[..|ops| - 1]) && Harmless(Run(s, ops[..|ops| - 1]), ops[|ops| - 1]))
  }

  /** Lost already, or queued in the window of a job that will clear it. */
  function Doomed(s: State): nat
    requires s.packed <= |s.list|
  {
    LostCount(s.history) + (if s.running then |s.list| - s.packed else 0)
  }

  lemma BeginJobDooms(s: State)
    requires Inv(s)
    ensures Inv(Step(s, BeginJob)) && Doomed(Step(s, BeginJob)) == Doomed(s)
  {
    BeginJobKeepsInv(s);
    Snoc(s.history, Published(s.next, s.list));
  }

  lemma EndJobDooms(s: State)
    requires Inv(s)
    ensures Inv(Step(s, EndJob)) && Doomed(Step(s, EndJob)) == Doomed(s)
  {
    EndJobKeepsInv(s);
    Snoc(s.history, Dropped(Unsent(s)));
    NoChunk(s.history);
  }

  lemma RenewDooms(s: State, live: bool)
    requires Inv(s)
    ensures Inv(Renew(s, live)) && Doomed(Renew(s, live)) >= Doomed(s)
    ensures Doomed(Renew(s, live)) == Doomed(s) <==> s.running || s.list == []
  {
    RenewKeepsInv(s, live);
    Snoc(s.history, Discarded(Unsent(s)));
    NoChunk(s.history);
  }

  lemma StepDooms(s: State, op: Op)
    requires Inv(s)
    ensures Inv(Step(s, op)) && Doomed(Step(s, op)) >= Doomed(s)
    ensures Doomed(Step(s, op)) == Doomed(s) <==> Harmless(s, op)
  {
    match op
    case Send(m) => SendKeepsInv(s, m);
    case BeginJob => BeginJobDooms(s);
    case EndJob => EndJobDooms(s);
    case StartServer => RenewDooms(s, true);
    case StopServer => RenewDooms(s, false);
    case _ =>
  }

  lemma {:induction false} RunDooms(ops: seq<Op>)
    ensures Inv(Run(INITIAL, ops))
    ensures Doomed(Run(INITIAL, ops)) == 0 <==> AllHarmless(INITIAL, ops)
  {
    if ops != [] {
      RunDooms(ops[..|ops| - 1]);
      StepDooms(Run(INITIAL, ops[..|ops| - 1]), ops[|ops| - 1]);
    }
  }

  lemma {:induction false} LengthsAdd(h: seq<Chunk>)
    ensures |Flatten(h)| == |Delivered(h)| + LostCount(h)
    ensures LostCount(h) == 0 ==> Flatten(h) == Delivered(h)
  {
    if h != [] {
      LengthsAdd(h[..|h| - 1]);
      Snoc(h[..|h| - 1], h[|h| - 1]);
      assert h == h[..|h| - 1] + [h[|h| - 1]];
    }
  }

  /**
   Nothing is lost, and what was published plus what is queued is exactly the
   stream, if and only if no message was queued inside a job's window and no stop
   or start found unsent messages.
   */
  lemma LosslessIff(ops: seq<Op>)
    requires !Run(INITIAL, ops).running
    ensures var s := Run(INITIAL, ops);
            s.stream == Delivered(s.history) + s.list <==> AllHarmless(INITIAL, ops)
  {
    RunDooms(ops);
    var s := Run(INITIAL, ops);
    LengthsAdd(s.history);
    assert Unsent(s) == s.list;
  }

  lemma PublishOne(a: Message)
    ensures Run(INITIAL, [StartServer, Send(a)] + [Timer, BeginJob])
         == State(true, [a], false, 0, true, 1, 1, [Published(0, [a])], [a])
  {
    RunTwo(INITIAL, [], StartServer, Send(a));
    assert [] + [StartServer, Send(a)] == [StartServer, Send(a)];
    assert Run(INITIAL, [StartServer, Send(a)]) == State(true, [a], false, 0, false, 0, 0, [], [a]);
    RunTwo(INITIAL, [StartServer, Send(a)], Timer, BeginJob);
  }

  /** A message queued by the publish callback never reaches a subscriber. */
  lemma CallbackMessageIsDropped(a: Message, b: Message)
    ensures var s := Run(INITIAL, [StartServer, Send(a)] + [Timer, BeginJob] + [Send(b), EndJob]);
            s == State(true, [], false, 0, false, 0, 1, [Published(0, [a]), Dropped([b])], [a, b])
    ensures Delivered([Published(0, [a]), Dropped([b])]) == [a]
  {
    PublishOne(a);
    RunTwo(INITIAL, [StartServer, Send(a)] + [Timer, BeginJob], Send(b), EndJob);
    assert [a, b][1..] == [b];
    OneDelivered(a, b);
  }

  /** A start on a list that is still there forgets what is queued. */
  lemma SecondStartForgets(a: Message)
    ensures var s := Run(INITIAL, [StartServer, Send(a)] + [StartServer]);
            s == State(true, [], false, 0, false, 0, 0, [Discarded([a])], [a])
  {
    RunTwo(INITIAL, [], StartServer, Send(a));
    assert [] + [StartServer, Send(a)] == [StartServer, Send(a)];
    assert Run(INITIAL, [StartServer, Send(a)]) == State(true, [a], false, 0, false, 0, 0, [], [a]);
    RunSnoc(INITIAL, [StartServer, Send(a)], StartServer);
    assert [a][0..] == [a];
  }

  lemma OneDelivered(a: Message, b: Message)
    ensures Delivered([Published(0, [a]), Dropped([b])]) == [a]
  {
    Snoc([], Published(0, [a]));
    Snoc([Published(0, [a])], Dropped([b]));
    assert [] + [Published(0, [a])] == [Published(0, [a])];
    assert [Published(0, [a])] + [Dropped([b])] == [Published(0, [a]), Dropped([b])];
  }

  lemma RunSnoc(s: State, ops: seq<Op>, op: Op)
    ensures Run(s, ops + [op]) == Step(Run(s, ops), op)
  {
    FoldSnoc(Step, s, ops, op);
  }

  lemma RunPrefix(s: State, ops: seq<Op>, i: nat)
    requires i < |ops|
    ensures Run(s, ops[..i + 1]) == Step(Run(s, ops[..i]), ops[i])
  {
    FoldPrefix(Step, s, ops, i);
  }

  lemma RunConcat(s: State, a: seq<Op>, b: seq<Op>)
    ensures Run(s, a + b) == Run(Run(s, a), b)
  {
    FoldConcat(Step, s, a, b);
  }

  lemma RunTwo(s: State, ops: seq<Op>, op1: Op, op2: Op)
    ensures Run(s, ops + [op1, op2]) == Step(Step(Run(s, ops), op1), op2)
  {
    RunSnoc(s, ops, op1);
    RunSnoc(s, ops + [op1], op2);
    assert ops + [op1, op2] == ops + [op1] + [op2];
  }

  // ----- many messages at once

  function SendOp(m: Message): Op {
    Send(m)
  }

  /** What sending some messages one after the other comes to: at most one of them fills the batch. */
  function SendAll(s: State, ms: seq<Message>): State {
    if !s.live then s
    else
      var fills := !s.testMode && |s.list| < MESSAGE_BATCH_SIZE <= |s.list| + |ms|;
      s.(list := s.list + ms, stream := s.stream + ms, pending := s.pending + if fills then 1 else 0)
  }

  lemma SendAllNone(s: State)
    ensures SendAll(s, []) == s
  {
    assert s.list + [] == s.list && s.stream + [] == s.stream;
  }

  lemma SendAllNext(s: State, ms: seq<Message>, i: nat)
    requires i < |ms|
    ensures SendAll(s, ms[..i + 1]) == Step(SendAll(s, ms[..i]), Send(ms[i]))
  {
    assert ms[..i + 1] == ms[..i] + [ms[i]];
    assert s.list + ms[..i + 1] == s.list + ms[..i] + [ms[i]];
    assert s.stream + ms[..i + 1] == s.stream + ms[..i] + [ms[i]];
  }

  /** Sending some messages one after the other. */
  function SendEach(s: State, ms: seq<Message>): State {
    if ms == [] then s else Step(SendEach(s, ms[..|ms| - 1]), Send(ms[|ms| - 1]))
  }

  lemma {:induction false} SendAllIsEach(s: State, ms: seq<Message>)
    ensures SendAll(s, ms) == SendEach(s, ms)
  {
    if ms == [] {
      SendAllNone(s);
    } else {
      var n := |ms| - 1;
      SendAllIsEach(s, ms[..n]);
      SendAllNext(s, ms, n);
      assert ms[..n + 1] == ms;
    }
  }

  lemma {:induction false} SendEachIsRun(s: State, ms: seq<Message>)
    ensures SendEach(s, ms) == Run(s, MapSeq(SendOp, ms))
  {
    if ms != [] {
      var n := |ms| - 1;
      SendEachIsRun(s, ms[..n]);
      MapSnoc(SendOp, ms[..n], ms[n]);
      assert ms == ms[..n] + [ms[n]];
      RunSnoc(s, MapSeq(SendOp, ms[..n]), Send(ms[n]));
    }
  }

  // ----- is a full batch always on its way?

  /** A full batch has a job registered or running. */
  predicate OnItsWay(s: State) {
    |s.list| >= 400 ==> s.pending > 0 || s.running
  }

  /** The step at which the batch fills up unnoticed. */
  predicate FillsUnnoticed(s: State, op: Op) {
    op.Send? && s.live && |s.list| == 399 && s.testMode && s.pending == 0 && !s.running
  }

  /** A step breaks the guarantee exactly when test mode swallows the 400th message's trigger. */
  lemma GuaranteeBreaksIff(s: State, op: Op)
    requires Inv(s) && OnItsWay(s)
    ensures OnItsWay(Step(s, op)) <==> !FillsUnnoticed(s, op)
  {
  }

  /** In test mode 400 messages fill the batch, and no job is registered or running. */
  lemma TestModeFillsUnnoticed(ms: seq<Message>)
    requires |ms| == 400
    ensures var s := Run(INITIAL, [StartServer, SetTestMode(true)] + MapSeq(SendOp, ms));
            s.list == ms && s.pending == 0 && !s.running && !OnItsWay(s)
  {
    RunTwo(INITIAL, [], StartServer, SetTestMode(true));
    assert [] + [StartServer, SetTestMode(true)] == [StartServer, SetTestMode(true)];
    var s := Run(INITIAL, [StartServer, SetTestMode(true)]);
    assert s == State(true, [], true, 0, false, 0, 0, [], []);
    RunConcat(INITIAL, [StartServer, SetTestMode(true)], MapSeq(SendOp, ms));
    SendEachIsRun(s, ms);
    SendAllIsEach(s, ms);
  }

  predicate Silent(s: State) {
    s.testMode && s.pending == 0 && !s.running
  }

  lemma SilentStep(s: State, op: Op)
    requires Inv(s) && Silent(s) && op != SetTestMode(false)
    ensures var t := Step(s, op);
            Inv(t) && Silent(t) && t.next == s.next && Publications(t.history) == Publications(s.history)
  {
    match op
    case Send(m) => SendKeepsInv(s, m);
    case StartServer => RenewPublishesNothing(s, true);
    case StopServer => RenewPublishesNothing(s, false);
    case _ =>
  }

  /** Test mode that begins with no job about publishes nothing, whatever happens, until it is left. */
  lemma {:induction false} TestModeIsSilent(s: State, ops: seq<Op>)
    requires Inv(s) && Silent(s) && SetTestMode(false) !in ops
    ensures var t := Run(s, ops);
            Inv(t) && Silent(t) && t.next == s.next && Publications(t.history) == Publications(s.history)
  {
    if ops != [] {
      TestModeIsSilent(s, ops[..|ops| - 1]);
      SilentStep(Run(s, ops[..|ops| - 1]), ops[|ops| - 1]);
    }
  }

  /** Outside test mode the timer and the job it registers deliver everything queued. */
  lemma TimerDelivers(s: State)
    requires Inv(s) && !s.testMode && !s.running
    ensures var t := Step(Step(Step(s, Timer), BeginJob), EndJob);
            && Inv(t) && t.list == [] && !t.running && t.pending == s.pending
            && Delivered(t.history) == Delivered(s.history) + s.list
  {
    var registered := Step(s, Timer);
    var begun := Step(registered, BeginJob);
    BeginJobKeepsInv(registered);
    Snoc(s.history, Published(s.next, s.list));
    EndJobPublishesNothing(begun);
    assert s.list == [] ==> Delivered(s.history) + [] == Delivered(s.history);
  }

  predicate NeverTestMode(ops: seq<Op>) {
    forall op | op in ops :: op != SetTestMode(true)
  }

  /**
   Pending-publish guarantee: although send_message tests only for equality
   with the batch size, in every run without test mode a queue of 400 or more
   messages has a publish job registered or running.
   */
  lemma {:induction false} PendingPublish(ops: seq<Op>)
    requires NeverTestMode(ops)
    ensures var s := Run(INITIAL, ops); Inv(s) && OnItsWay(s) && !s.testMode
  {
    if ops != [] {
      var before := ops[..|ops| - 1];
      forall op | op in before ensures op != SetTestMode(true) {
        assert op in ops;
      }
      assert ops[|ops| - 1] in ops;
      PendingPublish(before);
      StepKeepsInv(Run(INITIAL, before), ops[|ops| - 1]);
      GuaranteeBreaksIff(Run(INITIAL, before), ops[|ops| - 1]);
    }
  }

  // ----- jobs that outlive the server

  /** Without a list a step other than a start publishes, queues and numbers nothing. */
  lemma DeadStep(s: State, op: Op)
    requires Inv(s) && !s.live && op != StartServer
    ensures var t := Step(s, op);
            Inv(t) && !t.live && t.stream == s.stream && t.next == s.next && t.history == s.history
  {
    StepKeepsInv(s, op);
  }

  /**
   After a stop, whatever jobs were left registered or running, and whatever else
   happens: until the next start nothing is published, queued or numbered.
   */
  lemma {:induction false} StoppedPublishesNothing(s: State, ops: seq<Op>)
    requires Inv(s) && !s.live && StartServer !in ops
    ensures var t := Run(s, ops);
            Inv(t) && !t.live && t.stream == s.stream && t.next == s.next && t.history == s.history
  {
    if ops != [] {
      StoppedPublishesNothing(s, ops[..|ops| - 1]);
      DeadStep(Run(s, ops[..|ops| - 1]), ops[|ops| - 1]);
    }
  }

  // ----- which messages are lost

  /** The dropped messages of a history, in order. */
  function DroppedIn(h: seq<Chunk>): seq<Message> {
    if h == [] then []
    else DroppedIn(h[..|h| - 1]) + (if h[|h| - 1].Dropped? then h[|h| - 1].messages else [])
  }

  /** The messages a stop or a start threw away, in order. */
  function DiscardedIn(h: seq<Chunk>): seq<Message> {
    if h == [] then []
    else DiscardedIn(h[..|h| - 1]) + (if h[|h| - 1].Discarded? then h[|h| - 1].messages else [])
  }

  lemma SnocLosses(h: seq<Chunk>, c: Chunk)
    ensures DroppedIn(h + [c]) == DroppedIn(h) + (if c.Dropped? then c.messages else [])
    ensures DiscardedIn(h + [c]) == DiscardedIn(h) + (if c.Discarded? then c.messages else [])
  {
    assert (h + [c])[..|h|] == h;
  }

  /** Steps that destroy the list or make a new one. */
  predicate Renews(op: Op) {
    op.StartServer? || op.StopServer?
  }

  /** Sent since the last publication, the end of the last job, or the last start or stop. */
  function Waiting(ops: seq<Op>): seq<Message> {
    if ops == [] then []
    else
      var before, waiting := Run(INITIAL, ops[..|ops| - 1]), Waiting(ops[..|ops| - 1]);
      match ops[|ops| - 1]
      case Send(m) => if before.live then waiting + [m] else waiting
      case BeginJob => if before.pending > 0 && !before.running then [] else waiting
      case EndJob => if before.running then [] else waiting
      case StartServer => []
      case StopServer => []
      case _ => waiting
  }

  /** The messages that were waiting whenever a publishing job ended. */
  function WaitingAtJobEnds(ops: seq<Op>): seq<Message> {
    if ops == [] then []
    else
      var front := ops[..|ops| - 1];
      WaitingAtJobEnds(front) + (if ops[|ops| - 1].EndJob? && Run(INITIAL, front).running then Waiting(front) else [])
  }

  /** The messages that were waiting whenever the server started or stopped. */
  function WaitingAtRenewals(ops: seq<Op>): seq<Message> {
    if ops == [] then []
    else
      var front := ops[..|ops| - 1];
      WaitingAtRenewals(front) + (if Renews(ops[|ops| - 1]) then Waiting(front) else [])
  }

  /** The messages sent between packing and clearing of a job. */
  function LateSends(ops: seq<Op>): seq<Message> {
    if ops == [] then []
    else
      var before := Run(INITIAL, ops[..|ops| - 1]);
      LateSends(ops[..|ops| - 1]) +
      (if ops[|ops| - 1].Send? && before.live && before.running then [ops[|ops| - 1].m] else [])
  }

  lemma StepFates(s: State, op: Op, waiting: seq<Message>)
    requires Inv(s) && Unsent(s) == waiting
    ensures var t := Step(s, op);
            && Inv(t)
            && Unsent(t) == (match op
                             case Send(m) => if s.live then waiting + [m] else waiting
                             case BeginJob => if s.pending > 0 && !s.running then [] else waiting
                             case EndJob => if s.running then [] else waiting
                             case StartServer => []
                             case StopServer => []
                             case _ => waiting)
            && DroppedIn(t.history) == DroppedIn(s.history) + (if op.EndJob? && s.running then waiting else [])
            && DiscardedIn(t.history) == DiscardedIn(s.history) + (if Renews(op) then waiting else [])
  {
    StepKeepsInv(s, op);
    NoChunk(s.history);
    match op
    case Send(m) => assert s.live ==> (s.list + [m])[s.packed..] == Unsent(s) + [m];
    case BeginJob => SnocLosses(s.history, Published(s.next, s.list));
    case EndJob => SnocLosses(s.history, Dropped(Unsent(s)));
    case StartServer => SnocLosses(s.history, Discarded(Unsent(s)));
    case StopServer => SnocLosses(s.history, Discarded(Unsent(s)));
    case _ =>
  }

  /**
   The fate of every message, in every run: exactly the messages waiting at the
   end of a publishing job are dropped, exactly those waiting at a start or a stop
   are discarded, and the rest of the waiting ones are still queued.
   */
  lemma {:induction false} Fates(ops: seq<Op>)
    ensures var s := Run(INITIAL, ops);
            && Inv(s) && Unsent(s) == Waiting(ops)
            && DroppedIn(s.history) == WaitingAtJobEnds(ops)
            && DiscardedIn(s.history) == WaitingAtRenewals(ops)
  {
    if ops != [] {
      var front := ops[..|ops| - 1];
      Fates(front);
      StepFates(Run(INITIAL, front), ops[|ops| - 1], Waiting(front));
    }
  }

  /** The messages that a start or stop inside a job's window found waiting. */
  function LateAtRenewals(ops: seq<Op>): seq<Message> {
    if ops == [] then []
    else
      var front := ops[..|ops| - 1];
      LateAtRenewals(front) + (if Renews(ops[|ops| - 1]) && Run(INITIAL, front).running then Waiting(front) else [])
  }

  /** What was sent since the running job packed. */
  function Window(s: State): seq<Message>
    requires s.packed <= |s.list|
  {
    if s.running then Unsent(s) else []
  }

  lemma SendWindow(s: State, m: Message)
    requires Inv(s)
    ensures var t := Step(s, Send(m));
            Inv(t) && Window(t) == if s.live && s.running then Window(s) + [m] else Window(s)
  {
    SendKeepsInv(s, m);
    assert s.live ==> (s.list + [m])[s.packed..] == Unsent(s) + [m];
  }

  lemma BeginJobWindow(s: State)
    requires Inv(s)
    ensures Inv(Step(s, BeginJob)) && Window(Step(s, BeginJob)) == Window(s)
  {
    BeginJobKeepsInv(s);
  }

  /** The window after a step from s. */
  function WindowAfter(s: State, op: Op): seq<Message>
    requires s.packed <= |s.list|
  {
    match op
    case Send(m) => if s.live && s.running then Window(s) + [m] else Window(s)
    case EndJob => []
    case StartServer => []
    case StopServer => []
    case _ => Window(s)
  }

  lemma StepWindow(s: State, op: Op)
    requires Inv(s)
    ensures Inv(Step(s, op)) && Window(Step(s, op)) == WindowAfter(s, op)
  {
    match op
    case Send(m) => SendWindow(s, m);
    case BeginJob => BeginJobWindow(s);
    case EndJob => EndJobKeepsInv(s);
    case StartServer => RenewKeepsInv(s, true);
    case StopServer => RenewKeepsInv(s, false);
    case _ =>
  }

  lemma LateInOrder(s: State, op: Op, late: seq<Message>, dropped: seq<Message>)
    requires s.packed <= |s.list| && late == dropped + Window(s)
    requires Renews(op) && s.running ==> Window(s) == []
    ensures late + (if op.Send? && s.live && s.running then [op.m] else [])
         == dropped + (if op.EndJob? && s.running then Window(s) else []) + WindowAfter(s, op)
  {
  }

  lemma LateSplits(s: State, op: Op, late: seq<Message>, dropped: seq<Message>, stopped: seq<Message>)
    requires s.packed <= |s.list|
    requires multiset(late) == multiset(dropped) + multiset(stopped) + multiset(Window(s))
    ensures multiset(late + (if op.Send? && s.live && s.running then [op.m] else []))
         == multiset(dropped + (if op.EndJob? && s.running then Window(s) else []))
            + multiset(stopped + (if Renews(op) && s.running then Window(s) else []))
            + multiset(WindowAfter(s, op))
  {
  }

  lemma {:induction false} RunWindow(ops: seq<Op>)
    ensures var s := Run(INITIAL, ops); Inv(s) && (s.running ==> Window(s) == Waiting(ops))
  {
    Fates(ops);
  }

  lemma {:induction false} LateSendsCounted(ops: seq<Op>)
    ensures var s := Run(INITIAL, ops);
            && Inv(s)
            && multiset(LateSends(ops))
               == multiset(WaitingAtJobEnds(ops)) + multiset(LateAtRenewals(ops)) + multiset(Window(s))
  {
    if ops != [] {
      var front := ops[..|ops| - 1];
      LateSendsCounted(front);
      RunWindow(front);
      LateSplits(Run(INITIAL, front), ops[|ops| - 1], LateSends(front), WaitingAtJobEnds(front), LateAtRenewals(front));
      StepWindow(Run(INITIAL, front), ops[|ops| - 1]);
    }
  }

  /**
   Every message sent between packing and clearing of a job is dropped when the
   job clears, unless a stop or a start discards it first; no other message is
   dropped.
   */
  lemma LateSendsSplit(ops: seq<Op>)
    ensures var s := Run(INITIAL, ops);
            && Inv(s)
            && multiset(LateSends(ops))
               == multiset(DroppedIn(s.history)) + multiset(LateAtRenewals(ops)) + multiset(Window(s))
  {
    LateSendsCounted(ops);
    Fates(ops);
  }

  /** As long as no start or stop falls into a window with messages, the order is kept as well. */
  lemma {:induction false} LateSendsInOrder(ops: seq<Op>)
    requires LateAtRenewals(ops) == []
    ensures var s := Run(INITIAL, ops); Inv(s) && LateSends(ops) == WaitingAtJobEnds(ops) + Window(s)
  {
    if ops != [] {
      var front := ops[..|ops| - 1];
      LateSendsInOrder(front);
      RunWindow(front);
      LateInOrder(Run(INITIAL, front), ops[|ops| - 1], LateSends(front), WaitingAtJobEnds(front));
      StepWindow(Run(INITIAL, front), ops[|ops| - 1]);
    }
  }

  /**
   As long as no start or stop falls into a window with messages, exactly the
   messages sent between packing and clearing of a job are dropped, in order, once
   the job has cleared.
   */
  lemma LateSendsAreDropped(ops: seq<Op>)
    requires LateAtRenewals(ops) == []
    ensures var s := Run(INITIAL, ops); Inv(s) && LateSends(ops) == DroppedIn(s.history) + Window(s)
  {
    LateSendsInOrder(ops);
    Fates(ops);
  }
}
