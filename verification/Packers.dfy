/**
 The msgpack packer over a growing byte buffer, and the C functions that write
 one event with it. Map and array counts are written by hand in front of the
 elements; the contracts say that the bytes are the encoding of one value.
 */
module Packers {
  import opened Wrappers
  import opened MessagePack
  import opened Messages
  import opened Collections

  /** The process-wide number of the next collection, an unsigned long that wraps. */
  class MessageCounter {
    var next: nat

    constructor ()
      ensures next == 0
    {
      next := 0;
    }

    method Get() returns (n: nat)
      requires next < TWO_64
      modifies this
      ensures n == old(next) && next == (old(next) + 1) % TWO_64
      ensures next == NextNumber(old(next))
    {
      n := next;
      next := NextNumber(next);
    }
  }

  class Packer {
    var buf: bytes

    constructor ()
      ensures buf == []
    {
      buf := [];
    }

    method Clear()
      modifies this
      ensures buf == []
    {
      buf := [];
    }

    method PackNil()
      modifies this
      ensures buf == old(buf) + Enc(Nil)
    {
      buf := buf + EncHead(NilHead);
    }

    method PackInt(n: int)
      requires -TWO_31 <= n < TWO_31
      modifies this
      ensures buf == old(buf) + Enc(Int(n))
    {
      buf := buf + EncHead(IntHead(n));
    }

    method PackLong(n: int)
      requires -TWO_63 <= n < TWO_63
      modifies this
      ensures buf == old(buf) + Enc(Int(n))
    {
      buf := buf + EncHead(IntHead(n));
    }

    method PackUnsigned(n: nat)
      requires n < TWO_64
      modifies this
      ensures buf == old(buf) + Enc(Int(n))
    {
      buf := buf + EncHead(IntHead(n));
    }

    method PackDouble(bits: bytes)
      requires |bits| == 8
      modifies this
      ensures buf == old(buf) + Enc(Float(bits))
    {
      buf := buf + EncHead(FloatHead(bits));
    }

    method PackArray(n: nat)
      requires n < TWO_32
      modifies this
      ensures buf == old(buf) + EncHead(ArrHead(n))
    {
      buf := buf + EncHead(ArrHead(n));
    }

    method PackMap(n: nat)
      requires n < TWO_32
      modifies this
      ensures buf == old(buf) + EncHead(MapHead(n))
    {
      buf := buf + EncHead(MapHead(n));
    }

    /** Appends bytes that are already encoded. */
    method Append(raw: bytes)
      modifies this
      ensures buf == old(buf) + raw
    {
      buf := buf + raw;
    }

    method PackString(t: Text)
      requires FitsText(t)
      modifies this
      ensures buf == old(buf) + Enc(TextValue(t))
    {
      if t.None? {
        PackNil();
      } else {
        ghost var start := buf;
        buf := buf + EncHead(StrHead(|t.value|));
        buf := buf + t.value;
        Associate(start, EncHead(StrHead(|t.value|)), t.value);
      }
    }

    /** The first two fields of every event. */
    method PackHeader(eventType: nat, ts: bytes)
      requires eventType < TWO_31 && |ts| == 8
      modifies this
      ensures buf == old(buf) + EncAll(Header(eventType, ts))
    {
      ghost var start := buf;
      PackInt(EVENT_TYPE);
      PackInt(eventType);
      PackInt(TIMESTAMP);
      PackDouble(ts);
      TwoFields(start, Header(eventType, ts));
    }

    method PackObjCreatedPayload(objectId: nat, className: Text)
      requires FitsU64(objectId) && FitsText(className)
      modifies this
      ensures buf == old(buf) + Enc(CreatedPayload(objectId, className))
    {
      ghost var start := buf;
      PackMap(2);
      ghost var inMap := buf;
      PackInt(OBJECT_ID);
      PackUnsigned(objectId);
      PackInt(CLASS_NAME);
      PackString(className);
      TwoFields(inMap, CreatedPayload(objectId, className).fields);
      CloseMap(start, CreatedPayload(objectId, className).fields);
    }

    method PackObjCreatedEvent(ts: bytes, objectId: nat, className: Text)
      requires Fits(ObjCreated(ts, objectId, className))
      modifies this
      ensures buf == old(buf) + Wire(ObjCreated(ts, objectId, className))
    {
      ghost var start := buf;
      PackMap(3);
      PackHeader(OBJ_CREATED, ts);
      PackInt(PAYLOAD);
      PackObjCreatedPayload(objectId, className);
      CloseEvent(start, OBJ_CREATED, ts, CreatedPayload(objectId, className));
    }

    method PackObjDestroyedPayload(objectId: nat)
      requires FitsU64(objectId)
      modifies this
      ensures buf == old(buf) + Enc(DestroyedPayload(objectId))
    {
      ghost var start := buf;
      PackMap(1);
      ghost var inMap := buf;
      PackInt(OBJECT_ID);
      PackUnsigned(objectId);
      OneField(inMap, DestroyedPayload(objectId).fields);
      CloseMap(start, DestroyedPayload(objectId).fields);
    }

    method PackObjDestroyedEvent(ts: bytes, objectId: nat)
      requires Fits(ObjDestroyed(ts, objectId))
      modifies this
      ensures buf == old(buf) + Wire(ObjDestroyed(ts, objectId))
    {
      ghost var start := buf;
      PackMap(3);
      PackHeader(OBJ_DESTROYED, ts);
      PackInt(PAYLOAD);
      PackObjDestroyedPayload(objectId);
      CloseEvent(start, OBJ_DESTROYED, ts, DestroyedPayload(objectId));
    }

    /** The garbage collection events carry no payload. */
    method PackEventHeaderOnly(m: Message)
      requires (m.GcStart? || m.GcEndMark? || m.GcEndSweep?) && Fits(m)
      modifies this
      ensures buf == old(buf) + Wire(m)
    {
      ghost var start := buf;
      PackMap(2);
      PackHeader(TypeOf(m), m.ts);
      assert FieldsOf(m) == Header(TypeOf(m), m.ts);
      CloseMap(start, FieldsOf(m));
    }

    method PackValueObject(v: RubyValue)
      requires FitsScalar(Stringify(v))
      modifies this
      ensures buf == old(buf) + Enc(ScalarValue(Stringify(v)))
      ensures buf == old(buf) + Enc(match v
                                    case FixnumValue(n) => Int(n)
                                    case FloatValue(bits) => Float(bits)
                                    case SymbolValue(name) => Str(name)
                                    case StringValue(chars) => Str(chars)
                                    case OtherValue(toS) => Str(toS))
    {
      match v {
        case FixnumValue(n) => PackLong(n);
        case FloatValue(bits) => PackDouble(bits);
        case SymbolValue(name) => PackString(Some(name));
        case StringValue(chars) => PackString(Some(chars));
        case OtherValue(toS) => PackString(Some(toS));
      }
    }

    /** Writes every key and value of a hash, in iteration order. */
    method PackHashPairs(hash: seq<(RubyValue, RubyValue)>)
      requires forall e | e in HashEntries(hash) :: FitsScalar(e.key) && FitsScalar(e.val)
      modifies this
      ensures buf == old(buf) + EncAll(EntryValues(HashEntries(hash)))
    {
      ghost var start, entries := buf, HashEntries(hash);
      for i := 0 to |hash|
        invariant buf + EncAll(EntryValues(entries[i..])) == start + EncAll(EntryValues(entries))
      {
        assert entries[i] in entries;
        ghost var before := buf;
        PackValueObject(hash[i].0);
        PackValueObject(hash[i].1);
        NextEntry(before, entries[i..]);
      }
      assert entries[|hash|..] == [];
    }

    method PackHashPayload(hash: seq<(RubyValue, RubyValue)>)
      requires |hash| < TWO_32
      requires forall e | e in HashEntries(hash) :: FitsScalar(e.key) && FitsScalar(e.val)
      modifies this
      ensures buf == old(buf) + Enc(Map(EntryValues(HashEntries(hash))))
    {
      ghost var start := buf;
      PackMap(|hash|);
      PackHashPairs(hash);
      CloseMap(start, EntryValues(HashEntries(hash)));
    }

    method PackHashEvent(ts: bytes, kind: HashKind, hash: seq<(RubyValue, RubyValue)>)
      requires Fits(HashMessage(ts, kind, HashEntries(hash)))
      modifies this
      ensures buf == old(buf) + Wire(HashMessage(ts, kind, HashEntries(hash)))
      ensures old(buf) == [] ==> HashArrives(buf, ts, kind, hash)
    {
      ghost var start := buf;
      PackMap(3);
      PackHeader(if kind == GcStats then GC_STATS else HANDSHAKE, ts);
      PackInt(PAYLOAD);
      PackHashPayload(hash);
      CloseEvent(start, if kind == GcStats then GC_STATS else HANDSHAKE, ts, Map(EntryValues(HashEntries(hash))));
      HashReceived(ts, kind, hash);
      assert [] + Wire(HashMessage(ts, kind, HashEntries(hash))) == Wire(HashMessage(ts, kind, HashEntries(hash)));
    }

    method PackFrameNames(f: Frame)
      requires FitsFrame(f)
      modifies this
      ensures buf == old(buf) + EncAll(FrameFields(f)[..6])
    {
      ghost var start := buf;
      PackInt(METHOD_NAME);
      PackString(f.methodName);
      PackInt(LABEL);
      PackString(f.fullLabel);
      PackInt(FILE);
      PackString(f.file);
      ThreeFields(start, FrameFields(f)[..6]);
    }

    method PackFrameNumbers(f: Frame)
      requires FitsFrame(f)
      modifies this
      ensures buf == old(buf) + EncAll(FrameFields(f)[6..])
    {
      ghost var start := buf;
      PackInt(LINE);
      PackUnsigned(f.line);
      PackInt(SINGLETON_METHOD);
      PackInt(if f.singleton then 1 else 0);
      PackInt(THREAD_ID);
      PackUnsigned(f.threadId);
      ThreeFields(start, FrameFields(f)[6..]);
    }

    method PackFrame(f: Frame)
      requires FitsFrame(f)
      modifies this
      ensures buf == old(buf) + Enc(Map(FrameFields(f)))
    {
      ghost var start := buf;
      PackMap(6);
      ghost var inMap := buf;
      PackFrameNames(f);
      PackFrameNumbers(f);
      JoinFields(inMap, FrameFields(f), 6);
      CloseMap(start, FrameFields(f));
    }

    method PackFrames(frames: seq<Frame>)
      requires forall f | f in frames :: FitsFrame(f)
      modifies this
      ensures buf == old(buf) + EncAll(FrameValues(frames))
    {
      ghost var start := buf;
      for count := 0 to |frames|
        invariant buf + EncAll(FrameValues(frames[count..])) == start + EncAll(FrameValues(frames))
      {
        ghost var before := buf;
        PackFrame(frames[count]);
        assert FrameValues(frames[count..])[1..] == FrameValues(frames[count + 1..]);
        NextItem(before, FrameValues(frames[count..]));
      }
      assert frames[|frames|..] == [];
    }

    method PackCpuSampleEvent(ts: bytes, frames: seq<Frame>)
      requires Fits(CpuSample(ts, frames))
      modifies this
      ensures buf == old(buf) + Wire(CpuSample(ts, frames))
    {
      ghost var start := buf;
      PackMap(3);
      PackHeader(CPU_SAMPLE, ts);
      PackInt(PAYLOAD);
      ghost var atPayload := buf;
      PackArray(|frames|);
      PackFrames(frames);
      CloseArr(atPayload, FrameValues(frames));
      CloseEvent(start, CPU_SAMPLE, ts, Arr(FrameValues(frames)));
    }

    method PackCollectionNumber(counter: MessageCounter) returns (number: nat)
      requires counter.next < TWO_64 && counter as object != this
      modifies this, counter
      ensures number == old(counter.next) && counter.next == NextNumber(number)
      ensures buf == old(buf) + EncAll([Int(MESSAGE_COUNTER), Int(number)])
    {
      ghost var start := buf;
      PackInt(MESSAGE_COUNTER);
      number := counter.Get();
      PackUnsigned(number);
      OneField(start, [Int(MESSAGE_COUNTER), Int(number)]);
    }

    /** Writes the header by hand and splices the queued bytes in behind it. */
    method PackEventCollectionEvent(counter: MessageCounter, ts: bytes, data: bytes, messageCount: nat,
                                    ghost ms: seq<Message>)
      requires |ts| == 8 && counter.next < TWO_64 && counter as object != this
      requires data == Concat(Wires(ms))
      requires messageCount == |ms| < TWO_32
      modifies this, counter
      ensures buf == old(buf) + BatchWire(Batch(ts, old(counter.next), ms))
      ensures counter.next == NextNumber(old(counter.next))
    {
      ghost var start := buf;
      PackMap(4);
      PackHeader(EVENT_COLLECTION, ts);
      var number := PackCollectionNumber(counter);
      PackInt(PAYLOAD);
      PackArray(messageCount);
      Append(data);
      CloseBatch(start, Batch(ts, number, ms));
    }
  }

  // ----- hash values

  /** A Ruby value, with what `to_s` answers where the packer asks for it. */
  datatype RubyValue =
    | FixnumValue(n: int)
    | FloatValue(bits: bytes)
    | SymbolValue(name: bytes)
    | StringValue(chars: bytes)
    | OtherValue(toS: bytes)

  function Stringify(v: RubyValue): Scalar {
    match v
    case FixnumValue(n) => Fixnum(n)
    case FloatValue(bits) => Flonum(bits)
    case SymbolValue(name) => Words(name)
    case StringValue(chars) => Words(chars)
    case OtherValue(toS) => Words(toS)
  }

  function HashEntries(hash: seq<(RubyValue, RubyValue)>): (r: seq<Entry>)
    ensures |r| == |hash|
  {
    seq(|hash|, i requires 0 <= i < |hash| => Entry(Stringify(hash[i].0), Stringify(hash[i].1)))
  }

  /** What a client makes of a Ruby value. */
  predicate ReceivedAs(s: Scalar, v: RubyValue) {
    match v
    case FixnumValue(n) => s == Fixnum(n)
    case FloatValue(bits) => s == Flonum(bits)
    case SymbolValue(name) => s == Words(name)
    case StringValue(chars) => s == Words(chars)
    case OtherValue(toS) => s == Words(toS)
  }

  /** Every pair of a hash, in order. */
  predicate EntriesOf(es: seq<Entry>, hash: seq<(RubyValue, RubyValue)>) {
    && |es| == |hash|
    && forall i | 0 <= i < |hash| :: ReceivedAs(es[i].key, hash[i].0) && ReceivedAs(es[i].val, hash[i].1)
  }

  /** A client that reads the bytes of a hash event finds its pairs, and nothing else. */
  ghost predicate HashArrives(b: bytes, ts: bytes, kind: HashKind, hash: seq<(RubyValue, RubyValue)>) {
    exists es :: Receive(b) == Some((HashMessage(ts, kind, es), [])) && EntriesOf(es, hash)
  }

  lemma HashPairs(hash: seq<(RubyValue, RubyValue)>)
    ensures EntriesOf(HashEntries(hash), hash)
  {
  }

  lemma HashReceived(ts: bytes, kind: HashKind, hash: seq<(RubyValue, RubyValue)>)
    requires Fits(HashMessage(ts, kind, HashEntries(hash)))
    ensures EntriesOf(HashEntries(hash), hash)
    ensures HashArrives(Wire(HashMessage(ts, kind, HashEntries(hash))), ts, kind, hash)
  {
    var m := HashMessage(ts, kind, HashEntries(hash));
    MessageRoundTrip(m, []);
    assert Wire(m) + [] == Wire(m);
  }

  // ----- how a hand-written sequence of pieces adds up to one value

  lemma SixParts(start: bytes, m: bytes, h: bytes, p: bytes, a: bytes, raw: bytes)
    ensures start + m + h + p + a + raw == start + (m + h + p + a + raw)
  {
  }

  lemma JoinLists(b: bytes, vs: seq<Value>, ws: seq<Value>)
    ensures b + EncAll(vs) + EncAll(ws) == b + EncAll(vs + ws)
  {
    EncAllConcat(vs, ws);
    Associate(b, EncAll(vs), EncAll(ws));
  }

  lemma NextItem(b: bytes, vs: seq<Value>)
    requires vs != []
    ensures b + Enc(vs[0]) + EncAll(vs[1..]) == b + EncAll(vs)
  {
    Associate(b, Enc(vs[0]), EncAll(vs[1..]));
  }

  lemma NextField(b: bytes, fields: seq<Value>)
    requires |fields| >= 2
    ensures b + Enc(fields[0]) + Enc(fields[1]) + EncAll(fields[2..]) == b + EncAll(fields)
  {
    NextItem(b, fields);
    NextItem(b + Enc(fields[0]), fields[1..]);
    assert fields[1..][1..] == fields[2..];
  }

  lemma NextEntry(b: bytes, es: seq<Entry>)
    requires es != []
    ensures b + Enc(ScalarValue(es[0].key)) + Enc(ScalarValue(es[0].val)) + EncAll(EntryValues(es[1..]))
         == b + EncAll(EntryValues(es))
  {
    NextField(b, EntryValues(es));
    assert EntryValues(es)[2..] == EntryValues(es[1..]);
  }

  lemma OneField(b: bytes, f: seq<Value>)
    requires |f| == 2
    ensures b + Enc(f[0]) + Enc(f[1]) == b + EncAll(f)
  {
    NextField(b, f);
    var c := b + Enc(f[0]) + Enc(f[1]);
    assert f[2..] == [] && c + [] == c;
  }

  lemma TwoFields(b: bytes, f: seq<Value>)
    requires |f| == 4
    ensures b + Enc(f[0]) + Enc(f[1]) + Enc(f[2]) + Enc(f[3]) == b + EncAll(f)
  {
    NextField(b, f);
    OneField(b + Enc(f[0]) + Enc(f[1]), f[2..]);
  }

  lemma ThreeFields(b: bytes, f: seq<Value>)
    requires |f| == 6
    ensures b + Enc(f[0]) + Enc(f[1]) + Enc(f[2]) + Enc(f[3]) + Enc(f[4]) + Enc(f[5]) == b + EncAll(f)
  {
    NextField(b, f);
    TwoFields(b + Enc(f[0]) + Enc(f[1]), f[2..]);
  }

  lemma JoinFields(b: bytes, f: seq<Value>, n: nat)
    requires n <= |f|
    ensures b + EncAll(f[..n]) + EncAll(f[n..]) == b + EncAll(f)
  {
    assert f[..n] + f[n..] == f;
    JoinLists(b, f[..n], f[n..]);
  }

  lemma CloseMap(start: bytes, fields: seq<Value>)
    ensures start + EncHead(MapHead(|fields| / 2)) + EncAll(fields) == start + Enc(Map(fields))
  {
    Associate(start, EncHead(MapHead(|fields| / 2)), EncAll(fields));
  }

  lemma CloseArr(start: bytes, items: seq<Value>)
    ensures start + EncHead(ArrHead(|items|)) + EncAll(items) == start + Enc(Arr(items))
  {
    Associate(start, EncHead(ArrHead(|items|)), EncAll(items));
  }

  /** A three-entry map: the two header fields and the payload. */
  lemma CloseEvent(start: bytes, eventType: nat, ts: bytes, payload: Value)
    ensures start + EncHead(MapHead(3)) + EncAll(Header(eventType, ts)) + Enc(Int(PAYLOAD)) + Enc(payload)
         == start + Enc(Map(Header(eventType, ts) + Payload(payload)))
  {
    var inMap, fields := start + EncHead(MapHead(3)), Header(eventType, ts) + Payload(payload);
    OneField(inMap + EncAll(Header(eventType, ts)), Payload(payload));
    assert fields[..4] == Header(eventType, ts) && fields[4..] == Payload(payload);
    JoinFields(inMap, fields, 4);
    CloseMap(start, fields);
  }

  lemma CloseBatch(start: bytes, b: Batch)
    ensures start + EncHead(MapHead(4)) + EncAll(Header(EVENT_COLLECTION, b.ts))
            + EncAll([Int(MESSAGE_COUNTER), Int(b.number)]) + Enc(Int(PAYLOAD))
            + EncHead(ArrHead(|b.messages|)) + Concat(Wires(b.messages))
         == start + BatchWire(b)
  {
    JoinLists(start + EncHead(MapHead(4)), Header(EVENT_COLLECTION, b.ts), [Int(MESSAGE_COUNTER), Int(b.number)]);
    SplicedWire(b);
    SixParts(start, EncHead(MapHead(4)), EncAll(BatchHeader(b.ts, b.number)), Enc(Int(PAYLOAD)),
             EncHead(ArrHead(|b.messages|)), Concat(Wires(b.messages)));
  }
}
