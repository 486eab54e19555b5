/**
 The publishing side of the server: the message list, the registered jobs and
 the buffers handed to the PUB socket, refining the batching protocol.
 */
module Publishing {
  import opened Wrappers
  import opened MessagePack
  import opened Messages
  import opened Sequences
  import opened Collections
  import opened Packers
  import opened MessageAggregator
  import opened PublishProtocol

  /** What a subscriber makes of the published buffers; None if one of them is malformed. */
  function Subscribe(outbox: seq<bytes>): Option<seq<Batch>> {
    if outbox == [] then Some([])
    else
      var bs :- Subscribe(outbox[..|outbox| - 1]);
      var b :- ReceiveBatch(outbox[|outbox| - 1]);
      Some(bs + [b])
  }

  /** A buffer that carries a batch. */
  predicate Carries(buffer: bytes, b: Batch) {
    FitsBatch(b) && buffer == BatchWire(b)
  }

  /** A queued buffer that encodes a message. */
  predicate Encodes(buffer: bytes, m: Message) {
    Fits(m) && buffer == Wire(m)
  }

  lemma EncodesAll(buffers: seq<bytes>, ms: seq<Message>)
    requires Related(Encodes, buffers, ms)
    ensures buffers == Wires(ms) && All(Fits, ms)
  {
    forall i | 0 <= i < |ms| ensures buffers[i] == Wires(ms)[i] && Fits(ms[i]) {
      assert Encodes(buffers[i], ms[i]);
    }
  }

  function Part(b: Batch): (nat, seq<Message>) {
    (b.number, b.messages)
  }

  class Publisher {
    const list: MessageList
    const counter: MessageCounter
    var testMode: bool
    var pending: nat
    var outbox: seq<bytes>
    var publishing: bool  // a publish job is on the stack, between its two halves

    ghost var state: State
    ghost var batches: seq<Batch>

    ghost predicate Valid()
      reads this, list, list.messageArray, counter
    {
      && list.Valid() && Inv(state)
      && list.live == state.live && Related(Encodes, list.messages, state.list)
      && testMode == state.testMode && pending == state.pending
      && publishing == state.running && counter.next == state.next
      && Related(Carries, outbox, batches)
      && MapSeq(Part, batches) == Publications(state.history)
    }

    constructor ()
      ensures Valid() && state == INITIAL && outbox == []
      ensures fresh(list) && fresh(list.messageArray) && fresh(counter)
    {
      list := new MessageList();
      counter := new MessageCounter();
      testMode, pending, outbox, publishing := false, 0, [], false;
      state, batches := INITIAL, [];
    }

    /** message_list_new; a list that is still there is forgotten with its messages. */
    method StartList()
      requires Valid()
      modifies this, list
      ensures Valid() && state == Step(old(state), StartServer)
      ensures outbox == old(outbox) && fresh(list.messageArray)
    {
      ghost var after := Step(state, StartServer);
      RenewPublishesNothing(state, true);
      list.New();
      state := after;
    }

    method DestroyList()
      requires Valid() && state.live
      modifies this, list
      ensures Valid() && state == Step(old(state), StopServer)
      ensures outbox == old(outbox) && list.messageArray == old(list.messageArray)
    {
      ghost var after := Step(state, StopServer);
      RenewPublishesNothing(state, false);
      list.Destroy();
      state := after;
    }

    method SetTest(on: bool)
      requires Valid()
      modifies this
      ensures Valid() && state == Step(old(state), SetTestMode(on)) && outbox == old(outbox)
    {
      testMode := on;
      state := Step(state, SetTestMode(on));
    }

    /** The dispatch timer's call, and the call made for a full batch. */
    method SendMessages()
      requires Valid()
      modifies this
      ensures Valid() && state == Step(old(state), Timer) && outbox == old(outbox)
    {
      if testMode {
        return;
      }
      pending := pending + 1;
      state := Step(state, Timer);
    }

    method SendMessage(data: bytes, ghost m: Message)
      requires Valid() && state.live
      requires Fits(m) && data == Wire(m)
      modifies this, list, list.messageArray
      ensures Valid() && state == Step(old(state), Send(m)) && outbox == old(outbox)
      ensures list.messageArray == old(list.messageArray) || fresh(list.messageArray)
    {
      ghost var after := Step(state, Send(m));
      SendKeepsInv(state, m);
      RelatedSnoc(Encodes, list.messages, state.list, data, m);
      list.QueueMessage(data);
      if list.noOfMessages == MESSAGE_BATCH_SIZE {
        if !testMode {
          pending := pending + 1;
        }
      }
      state := after;
    }

    /** publish_message: the buffer goes out on the PUB socket. */
    method PublishMessage(buffer: bytes, ghost b: Batch)
      requires Related(Carries, outbox, batches) && Carries(buffer, b)
      modifies this`outbox, this`batches
      ensures Related(Carries, outbox, batches)
      ensures outbox == old(outbox) + [buffer]
      ensures MapSeq(Part, batches) == MapSeq(Part, old(batches)) + [(b.number, b.messages)]
    {
      RelatedSnoc(Carries, outbox, batches, buffer, b);
      MapSnoc(Part, batches, b);
      outbox := outbox + [buffer];
      batches := batches + [b];
    }

    /** Packs the queue into a new buffer, which stays empty if nothing is queued. */
    method PackQueue(ts: bytes) returns (buffer: bytes)
      requires Valid() && |ts| == 8 && |state.list| < TWO_32
      modifies counter
      ensures list.Valid()
      ensures state.list == [] ==> buffer == [] && counter.next == old(counter.next)
      ensures state.list != [] ==> buffer != [] && Carries(buffer, Batch(ts, old(counter.next), state.list))
      ensures state.list != [] ==> counter.next == NextNumber(old(counter.next))
    {
      var sbuf := new Packer();
      EncodesAll(list.messages, state.list);
      list.GetEventCollectionMessage(sbuf, counter, ts, state.list);
      buffer := sbuf.buf;
    }

    /** First half of a publish job: pack everything queued and hand it to the socket. */
    method PackAndPublish(ts: bytes)
      requires Valid() && pending > 0 && !state.running
      requires |ts| == 8 && |state.list| < TWO_32
      modifies this, counter
      ensures Valid() && state == Step(old(state), BeginJob)
      ensures |outbox| == |old(outbox)| + (if old(state.list) == [] then 0 else 1) && old(outbox) <= outbox
      ensures old(state.list) == [] ==> counter.next == old(counter.next)
    {
      ghost var b, after := Batch(ts, counter.next, state.list), Step(state, BeginJob);
      BeginJobPublishes(state);
      var buffer := PackQueue(ts);
      pending := pending - 1;
      if buffer != [] {
        PublishMessage(buffer, b);
        publishing := true;
      }
      state := after;
    }

    /** Second half of a publish job, after the callback has returned. */
    method ClearPublished()
      requires Valid()
      requires state.running || state.list == []
      modifies this, list
      ensures Valid() && state == Step(old(state), EndJob) && outbox == old(outbox)
      ensures list.messageArray == old(list.messageArray)
    {
      ghost var after := Step(state, EndJob);
      EndJobPublishesNothing(state);
      list.Clear();
      publishing := false;
      state := after;
    }

    /**
     A whole publish job. The callback runs only if something was published; what
     it makes the server queue falls into the job's window. A job that fires after
     the list was destroyed finds it empty, reads nothing and publishes nothing.
     */
    method TriggerPublishCallback(ts: bytes, callback: seq<Op>)
      requires Valid() && pending > 0 && !state.running
      requires |ts| == 8 && |state.list| < TWO_32
      requires forall op | op in callback :: op == Timer || (op.Send? && Fits(op.m))
      modifies this, list, list.messageArray, counter
      ensures Valid()
      ensures list.messageArray == old(list.messageArray) || fresh(list.messageArray)
      ensures !old(state.live) || old(state.list) == [] ==>
                && outbox == old(outbox)
                && state == old(state).(pending := old(pending) - 1)
      ensures old(state.list) != [] ==>
                && state == Run(old(state), [BeginJob] + callback + [EndJob])
                && |outbox| == |old(outbox)| + 1 && old(outbox) <= outbox
    {
      ghost var s := state;
      PackAndPublish(ts);
      if list.noOfMessages > 0 {
        RunCallback(callback);
      }
      ClearPublished();
      RunJob(s, callback);
    }

    method CallbackStep(op: Op)
      requires Valid() && state.live && state.running
      requires op == Timer || (op.Send? && Fits(op.m))
      modifies this, list, list.messageArray
      ensures Valid() && state == Step(old(state), op) && state.live && state.running && outbox == old(outbox)
      ensures list.messageArray == old(list.messageArray) || fresh(list.messageArray)
    {
      if op.Send? {
        SendMessage(Wire(op.m), op.m);
      } else {
        SendMessages();
      }
    }

    /** The steps the server takes while the publish callback runs. */
    method RunCallback(callback: seq<Op>)
      requires Valid() && state.live && state.running
      requires forall op | op in callback :: op == Timer || (op.Send? && Fits(op.m))
      modifies this, list, list.messageArray
      ensures Valid() && state.running && state == Run(old(state), callback) && outbox == old(outbox)
      ensures list.messageArray == old(list.messageArray) || fresh(list.messageArray)
    {
      for i := 0 to |callback|
        invariant Valid() && state.live && state.running && outbox == old(outbox)
        invariant state == Run(old(state), callback[..i])
        invariant list.messageArray == old(list.messageArray) || fresh(list.messageArray)
      {
        RunPrefix(old(state), callback, i);
        CallbackStep(callback[i]);
      }
      assert callback[..|callback|] == callback;
    }
  }

  /** The bytes queued last are those of the message queued last. */
  lemma LastQueued(p: Publisher, s: State, m: Message)
    requires p.Valid() && s.live && p.state == Step(s, Send(m))
    ensures p.list.messages != [] && p.list.messages[|p.list.messages| - 1] == Wire(m) && Fits(m)
  {
    var n := |p.state.list| - 1;
    assert p.state.list[n] == m;
    assert Encodes(p.list.messages[n], p.state.list[n]);
  }

  lemma RunJob(s: State, callback: seq<Op>)
    ensures Run(s, [BeginJob] + callback + [EndJob]) == Step(Run(Step(s, BeginJob), callback), EndJob)
  {
    RunSnoc(s, [BeginJob] + callback, EndJob);
    RunConcat(s, [BeginJob], callback);
    assert [BeginJob][..0] == [];
  }

  lemma ReceiveCarried(buffer: bytes, b: Batch)
    requires Carries(buffer, b)
    ensures ReceiveBatch(buffer) == Some(b)
  {
    SplicedWire(b);
    CollectionRoundTrip(b, buffer);
  }

  /** A subscriber reads the published buffers back as the batches they carry. */
  lemma {:induction false} SubscribeBack(outbox: seq<bytes>, batches: seq<Batch>)
    requires Related(Carries, outbox, batches)
    ensures Subscribe(outbox) == Some(batches)
  {
    if outbox != [] {
      var n := |outbox| - 1;
      SubscribeBack(outbox[..n], batches[..n]);
      ReceiveCarried(outbox[n], batches[n]);
      assert batches == batches[..n] + [batches[n]];
    }
  }

  /**
   End to end: whatever a publisher has been through, decoding the published
   buffers succeeds and gives the published chunks of its history, number and
   messages, so their concatenation is the delivered part of the queued stream.
   */
  lemma SubscriberSeesDelivered(p: Publisher)
    requires p.Valid()
    ensures var bs := Subscribe(p.outbox);
            bs.Some? && MapSeq(Part, bs.value) == Publications(p.state.history)
  {
    SubscribeBack(p.outbox, p.batches);
  }
}
