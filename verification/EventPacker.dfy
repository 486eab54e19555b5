/**
 pack_event: clears the buffer and writes one event of any type into it. The
 event_collection case is MessageAggregator.MessageList.GetEventCollectionMessage.
 */
module EventPacker {
  import opened Wrappers
  import opened MessagePack
  import opened Messages
  import opened Packers
  import opened DumpStream

  /** The event structs; the caller of send_hash_as_event chooses the type of a hash event. */
  datatype Event =
    | ObjCreatedEvent(objectId: nat, klass: Text)
    | ObjDestroyedEvent(objectId: nat)
    | HeaderEvent(eventType: int)
    | HashEvent(eventType: int, hash: seq<(RubyValue, RubyValue)>)
    | CpuSampleEvent(frames: seq<Frame>)
    | DumpEvent(ev: ObjectSpaceDumpEvent)

  function EventTypeOf(e: Event): int {
    match e
    case ObjCreatedEvent(_, _) => OBJ_CREATED
    case ObjDestroyedEvent(_) => OBJ_DESTROYED
    case HeaderEvent(t) => t
    case HashEvent(t, _) => t
    case CpuSampleEvent(_) => CPU_SAMPLE
    case DumpEvent(_) => OBJECT_SPACE_DUMP
  }

  /** A type that says nothing about the struct behind the header: one without a payload, or unknown. */
  predicate BareType(t: int) {
    t < 0 || t > CPU_SAMPLE || t in {GC_START, GC_END_M, GC_END_S}
  }

  /** The type tag agrees with the struct, as in every caller of pack_event. */
  predicate WellTagged(e: Event) {
    match e
    case HeaderEvent(t) => BareType(t)
    case HashEvent(t, _) => BareType(t) || t in {GC_STATS, HANDSHAKE}
    case _ => true
  }

  /** The message an event becomes; none for a type that is not implemented. */
  function MessageOf(e: Event, ts: bytes): Option<Message>
    requires !e.DumpEvent?
  {
    match e
    case ObjCreatedEvent(id, klass) => Some(ObjCreated(ts, id, klass))
    case ObjDestroyedEvent(id) => Some(ObjDestroyed(ts, id))
    case CpuSampleEvent(frames) => Some(CpuSample(ts, frames))
    case HashEvent(t, hash) =>
      if t == GC_STATS then Some(HashMessage(ts, GcStats, HashEntries(hash)))
      else if t == HANDSHAKE then Some(HashMessage(ts, Handshake, HashEntries(hash)))
      else BareMessage(t, ts)
    case HeaderEvent(t) => BareMessage(t, ts)
  }

  function BareMessage(t: int, ts: bytes): Option<Message> {
    if t == GC_START then Some(GcStart(ts))
    else if t == GC_END_M then Some(GcEndMark(ts))
    else if t == GC_END_S then Some(GcEndSweep(ts))
    else None
  }

  /** A message keeps the type and the time of its event; only types 0 to 4, 6, 8 and 9 become one. */
  lemma MessageTypes(e: Event, ts: bytes)
    requires WellTagged(e) && !e.DumpEvent?
    ensures MessageOf(e, ts).Some? <==> EventTypeOf(e) in {0, 1, 2, 3, 4, 6, 8, 9}
    ensures MessageOf(e, ts).Some? ==>
              TypeOf(MessageOf(e, ts).value) == EventTypeOf(e) && MessageOf(e, ts).value.ts == ts
    ensures e.ObjCreatedEvent? ==> EventTypeOf(e) == 0
    ensures e.ObjDestroyedEvent? ==> EventTypeOf(e) == 1
    ensures e.CpuSampleEvent? ==> EventTypeOf(e) == 9
    ensures e.HashEvent? ==> EventTypeOf(e) == e.eventType
  {
  }

  /** Everything but a heap dump. Returns false where the C function raises. */
  method PackPlainEvent(e: Event, packer: Packer, ts: bytes) returns (ok: bool)
    requires WellTagged(e) && !e.DumpEvent? && |ts| == 8
    requires MessageOf(e, ts).Some? ==> Fits(MessageOf(e, ts).value)
    modifies packer
    ensures ok <==> MessageOf(e, ts).Some?
    ensures packer.buf == if ok then Wire(MessageOf(e, ts).value) else []
    ensures e.HashEvent? && e.eventType == GC_STATS ==> HashArrives(packer.buf, ts, GcStats, e.hash)
    ensures e.HashEvent? && e.eventType == HANDSHAKE ==> HashArrives(packer.buf, ts, Handshake, e.hash)
  {
    packer.Clear();
    ok := true;
    var t := EventTypeOf(e);
    if t == OBJ_CREATED {
      packer.PackObjCreatedEvent(ts, e.objectId, e.klass);
    } else if t == OBJ_DESTROYED {
      packer.PackObjDestroyedEvent(ts, e.objectId);
    } else if t == GC_START {
      packer.PackEventHeaderOnly(GcStart(ts));
    } else if t == GC_END_M {
      packer.PackEventHeaderOnly(GcEndMark(ts));
    } else if t == GC_END_S {
      packer.PackEventHeaderOnly(GcEndSweep(ts));
    } else if t == GC_STATS {
      packer.PackHashEvent(ts, GcStats, e.hash);
    } else if t == HANDSHAKE {
      packer.PackHashEvent(ts, Handshake, e.hash);
    } else if t == CPU_SAMPLE {
      packer.PackCpuSampleEvent(ts, e.frames);
    } else {
      ok := false;
    }
    assert ok ==> [] + Wire(MessageOf(e, ts).value) == Wire(MessageOf(e, ts).value);
  }

  /** The next message of a heap dump. */
  method PackDump(ev: ObjectSpaceDumpEvent, packer: Packer, ts: bytes, batchSize: nat, ghost m: Message)
    requires ev.Valid() && |ts| == 8 && ev.correlationId < TWO_31 && ev.objectCount < TWO_64 && batchSize < TWO_32
    requires m == NextMessage(ev, ts, batchSize)
    modifies packer, ev, ev.arena
    ensures ev.Valid() && ev.packedObjects == old(ev.packedObjects + ev.BatchLength(batchSize))
    ensures ev.objectCount == old(ev.objectCount) && packer.buf == Wire(m)
  {
    packer.Clear();
    ev.PackObjectSpaceDumpEvent(packer, ts, batchSize);
    assert [] + Wire(m) == Wire(m);
  }

  ghost function NextMessage(ev: ObjectSpaceDumpEvent, ts: bytes, batchSize: nat): Message
    requires ev.packedObjects <= ev.objectCount == |ev.dump.records|
    reads ev, ev.dump`records
  {
    ObjectSpaceDump(ts, ev.correlationId, ev.objectCount,
                    ev.dump.records[ev.packedObjects..ev.packedObjects + ev.BatchLength(batchSize)])
  }

  // ----- hashes as dictionaries

  /** What a client that reads the payload into a dictionary gets; a later entry wins. */
  function Dictionary(es: seq<Entry>): map<Scalar, Scalar> {
    if es == [] then map[]
    else Dictionary(es[..|es| - 1])[es[|es| - 1].key := es[|es| - 1].val]
  }

  lemma DictionaryGrows(es: seq<Entry>, e: Entry)
    ensures Dictionary(es + [e]).Keys == Dictionary(es).Keys + {e.key}
    ensures |Dictionary(es + [e])| == |Dictionary(es)| + if e.key in Dictionary(es) then 0 else 1
  {
    assert (es + [e])[..|es|] == es;
    var before, after := Dictionary(es), Dictionary(es + [e]);
    assert |before| == |before.Keys| && |after| == |after.Keys|;
    if e.key in before {
      assert after.Keys == before.Keys;
    }
  }

  lemma {:induction false} DictionaryKeys(es: seq<Entry>)
    ensures forall k :: k in Dictionary(es) <==> exists i :: 0 <= i < |es| && es[i].key == k
    ensures |Dictionary(es)| <= |es|
  {
    if es != [] {
      var n := |es| - 1;
      DictionaryKeys(es[..n]);
      DictionaryGrows(es[..n], es[n]);
      assert es == es[..n] + [es[n]];
      forall k ensures k in Dictionary(es) <==> exists i :: 0 <= i < |es| && es[i].key == k {
        if k in Dictionary(es[..n]) {
          var i :| 0 <= i < n && es[..n][i].key == k;
          assert es[i].key == k;
        }
        if i :| 0 <= i < |es| && es[i].key == k {
          assert i < n ==> es[..n][i].key == k;
        }
      }
    }
  }

  /** Two entries whose keys look the same on the wire. */
  ghost predicate KeysCollide(hash: seq<(RubyValue, RubyValue)>) {
    exists i, j, s :: 0 <= i < j < |hash| && ReceivedAs(s, hash[i].0) && ReceivedAs(s, hash[j].0)
  }

  predicate DistinctKeys(es: seq<Entry>) {
    forall i, j | 0 <= i < j < |es| :: es[i].key != es[j].key
  }

  lemma DistinctSnoc(es: seq<Entry>, e: Entry)
    ensures DistinctKeys(es + [e]) <==> DistinctKeys(es) && e.key !in Dictionary(es)
  {
    var all := es + [e];
    DictionaryKeys(es);
    assert forall i | 0 <= i < |es| :: all[i] == es[i];
    if e.key in Dictionary(es) {
      var i :| 0 <= i < |es| && es[i].key == e.key;
      assert all[i].key == all[|es|].key;
    }
    if !DistinctKeys(es) {
      var i, j :| 0 <= i < j < |es| && es[i].key == es[j].key;
      assert all[i].key == all[j].key;
    }
  }

  lemma {:induction false} DictionarySize(es: seq<Entry>)
    ensures |Dictionary(es)| == |es| <==> DistinctKeys(es)
  {
    if es != [] {
      var n := |es| - 1;
      assert es == es[..n] + [es[n]];
      DictionarySize(es[..n]);
      DictionaryKeys(es[..n]);
      DictionaryGrows(es[..n], es[n]);
      DistinctSnoc(es[..n], es[n]);
    }
  }

  /**
   A dictionary client sees every entry of a hash if and only if no two of its
   keys become the same on the wire (as :foo and "foo" do).
   */
  lemma HashCompleteIff(hash: seq<(RubyValue, RubyValue)>, es: seq<Entry>)
    requires EntriesOf(es, hash)
    ensures |Dictionary(es)| == |hash| <==> !KeysCollide(hash)
  {
    DictionarySize(es);
    if !DistinctKeys(es) {
      var i, j :| 0 <= i < j < |es| && es[i].key == es[j].key;
      assert ReceivedAs(es[i].key, hash[i].0) && ReceivedAs(es[i].key, hash[j].0);
    }
  }

  /** A Ruby hash with :foo and "foo" loses an entry. */
  lemma SymbolAndStringCollide(name: bytes, a: RubyValue, b: RubyValue, es: seq<Entry>)
    requires EntriesOf(es, [(SymbolValue(name), a), (StringValue(name), b)])
    ensures |Dictionary(es)| < 2
  {
    var hash := [(SymbolValue(name), a), (StringValue(name), b)];
    assert ReceivedAs(Words(name), hash[0].0) && ReceivedAs(Words(name), hash[1].0);
    HashCompleteIff(hash, es);
    DictionaryKeys(es);
  }
}
