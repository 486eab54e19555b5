/**
 The event_collection message: a numbered batch of messages, whose payload array
 is spliced in as the raw concatenation of the messages' own encodings.
 */
module Collections {
  import opened Wrappers
  import opened MessagePack
  import opened Messages
  import opened Sequences

  datatype Batch = Batch(ts: bytes, number: nat, messages: seq<Message>)

  /** An unsigned long counts up and wraps around. */
  function NextNumber(n: nat): nat {
    if n + 1 == TWO_64 then 0 else n + 1
  }

  predicate FitsBatch(b: Batch) {
    && |b.ts| == 8 && FitsU64(b.number) && |b.messages| < TWO_32
    && All(Fits, b.messages)
  }

  function MessageValues(ms: seq<Message>): seq<Value> {
    MapSeq(ValueOf, ms)
  }

  function Wires(ms: seq<Message>): seq<bytes> {
    MapSeq(Wire, ms)
  }

  function Concat(chunks: seq<bytes>): bytes {
    if chunks == [] then [] else Concat(chunks[..|chunks| - 1]) + chunks[|chunks| - 1]
  }

  /** The fields in front of the payload. */
  function BatchHeader(ts: bytes, number: nat): seq<Value> {
    Header(EVENT_COLLECTION, ts) + [Int(MESSAGE_COUNTER), Int(number)]
  }

  function BatchValue(b: Batch): Value {
    Map(BatchHeader(b.ts, b.number) + Payload(Arr(MessageValues(b.messages))))
  }

  /** The numbers of a collection: type 7, and its own number under key 9. */
  lemma BatchNumbers(b: Batch)
    ensures BatchValue(b).fields
         == [Int(0), Int(7), Int(1), Float(b.ts), Int(9), Int(b.number), Int(2), Arr(MessageValues(b.messages))]
  {
  }

  function BatchWire(b: Batch): bytes {
    Enc(BatchValue(b))
  }

  // ----- the client's side

  function ReadMessages(vs: seq<Value>): Option<seq<Message>> {
    if vs == [] then Some([])
    else
      var m :- ReadMessage(vs[0]);
      var ms :- ReadMessages(vs[1..]);
      Some([m] + ms)
  }

  function ReadBatch(v: Value): Option<Batch> {
    var f :- AsMap(v);
    var t :- NatField(f, EVENT_TYPE);
    var tsV :- Field(f, TIMESTAMP);
    var number :- NatField(f, MESSAGE_COUNTER);
    var items :- ArrField(f, PAYLOAD);
    var ms :- ReadMessages(items);
    if t == EVENT_COLLECTION && tsV.Float? then Some(Batch(tsV.bits, number, ms)) else None
  }

  /** Accepts a published message only if it is one collection and nothing else. */
  function ReceiveBatch(b: bytes): Option<Batch> {
    var (v, rest) :- Decode(b);
    if rest == [] then ReadBatch(v) else None
  }

  /** Blind concatenation of encodings is the encoding of the elements of an array. */
  lemma {:induction false} SplicedPayload(ms: seq<Message>)
    ensures Concat(Wires(ms)) == EncAll(MessageValues(ms))
  {
    if ms != [] {
      var n := |ms| - 1;
      SplicedPayload(ms[..n]);
      assert Wires(ms)[..n] == Wires(ms[..n]);
      var last := [ValueOf(ms[n])];
      MapSnoc(ValueOf, ms[..n], ms[n]);
      assert ms[..n] + [ms[n]] == ms;
      EncAllConcat(MessageValues(ms[..n]), last);
      assert EncAll(last) == Enc(last[0]) + EncAll(last[1..]) == Wire(ms[n]);
    }
  }

  lemma {:induction false} ReadMessagesBack(ms: seq<Message>)
    ensures ReadMessages(MessageValues(ms)) == Some(ms)
  {
    if ms != [] {
      assert MessageValues(ms)[1..] == MessageValues(ms[1..]);
      ReadMessageBack(ms[0]);
      ReadMessagesBack(ms[1..]);
      assert ms == [ms[0]] + ms[1..];
    }
  }

  lemma BatchEncodable(b: Batch)
    requires FitsBatch(b)
    ensures Encodable(BatchValue(b))
  {
    forall i | 0 <= i < |b.messages| ensures Encodable(MessageValues(b.messages)[i]) {
      MessageEncodable(b.messages[i]);
    }
    assert Encodable(Arr(MessageValues(b.messages)));
  }

  lemma ReadBatchBack(b: Batch)
    requires FitsBatch(b)
    ensures ReadBatch(BatchValue(b)) == Some(b)
  {
    var f := BatchValue(b).fields;
    FieldAt(f, 0, EVENT_TYPE);
    FieldAt(f, 1, TIMESTAMP);
    FieldAt(f, 2, MESSAGE_COUNTER);
    FieldAt(f, 3, PAYLOAD);
    ReadMessagesBack(b.messages);
  }

  /**
   Collection round trip: header bytes written by hand, followed by the queued
   encodings as raw bytes, decode to one four-entry map that uses up every byte,
   and to exactly the queued messages in order.
   */
  lemma CollectionRoundTrip(b: Batch, published: bytes)
    requires FitsBatch(b)
    requires published
          == EncHead(MapHead(4)) + EncAll(BatchHeader(b.ts, b.number)) + Enc(Int(PAYLOAD))
             + EncHead(ArrHead(|b.messages|)) + Concat(Wires(b.messages))
    ensures published == BatchWire(b)
    ensures Decode(published) == Some((BatchValue(b), [])) && |BatchValue(b).fields| == 8
    ensures ReceiveBatch(published) == Some(b)
  {
    SplicedWire(b);
    BatchEncodable(b);
    DecodeEnc(BatchValue(b), []);
    assert BatchWire(b) + [] == BatchWire(b);
    ReadBatchBack(b);
  }

  lemma SplicedWire(b: Batch)
    ensures EncHead(MapHead(4)) + EncAll(BatchHeader(b.ts, b.number)) + Enc(Int(PAYLOAD))
            + EncHead(ArrHead(|b.messages|)) + Concat(Wires(b.messages)) == BatchWire(b)
  {
    SplicedPayload(b.messages);
    var h, p, a := EncAll(BatchHeader(b.ts, b.number)), Enc(Int(PAYLOAD)), EncHead(ArrHead(|b.messages|));
    var raw := EncAll(MessageValues(b.messages));
    var payload := Payload(Arr(MessageValues(b.messages)));
    assert EncAll(payload) == p + (a + raw) by {
      assert payload[1..] == [payload[1]] && payload[1..][1..] == [];
      assert EncAll(payload[1..]) == a + raw;
    }
    EncAllConcat(BatchHeader(b.ts, b.number), payload);
    FiveParts(EncHead(MapHead(4)), h, p, a, raw);
  }

  lemma FiveParts(m: bytes, h: bytes, p: bytes, a: bytes, raw: bytes)
    ensures m + h + p + a + raw == m + (h + (p + (a + raw)))
  {
  }
}
