/**
 The messages of the rbkit protocol: what each of them means, the MessagePack
 value that carries it, and the client's reading of such a value. A client
 looks every field up by its key, so reading back is independent of the order
 in which the server writes the fields.
 */
module Messages {
  import opened Wrappers
  import opened MessagePack

  // Event types
  const OBJ_CREATED := 0
  const OBJ_DESTROYED := 1
  const GC_START := 2
  const GC_END_M := 3
  const GC_END_S := 4
  const OBJECT_SPACE_DUMP := 5
  const GC_STATS := 6
  const EVENT_COLLECTION := 7
  const HANDSHAKE := 8
  const CPU_SAMPLE := 9

  // Message fields
  const EVENT_TYPE := 0
  const TIMESTAMP := 1
  const PAYLOAD := 2
  const OBJECT_ID := 3
  const CLASS_NAME := 4
  const REFERENCES := 5
  const FILE := 6
  const LINE := 7
  const SIZE := 8
  const MESSAGE_COUNTER := 9
  const CORRELATION_ID := 10
  const COMPLETE_MESSAGE_COUNT := 11
  const METHOD_NAME := 12
  const LABEL := 13
  const SINGLETON_METHOD := 14
  const THREAD_ID := 15

  /** A C string that may be NULL. */
  type Text = Option<bytes>

  /** One object of a heap dump; line 0 and size 0 stand for "unknown". */
  datatype Record = Record(objectId: nat, className: Text, references: seq<nat>, file: Text, line: nat, size: nat)

  /** One frame of a cpu sample. */
  datatype Frame = Frame(methodName: Text, fullLabel: Text, file: Text, line: nat, singleton: bool, threadId: nat)

  /** What a hash key or value is on the wire. */
  datatype Scalar = Fixnum(n: int) | Flonum(bits: bytes) | Words(chars: bytes)

  datatype Entry = Entry(key: Scalar, val: Scalar)

  datatype HashKind = GcStats | Handshake

  datatype Message =
    | ObjCreated(ts: bytes, objectId: nat, className: Text)
    | ObjDestroyed(ts: bytes, objectId: nat)
    | GcStart(ts: bytes)
    | GcEndMark(ts: bytes)
    | GcEndSweep(ts: bytes)
    | ObjectSpaceDump(ts: bytes, correlationId: nat, completeCount: nat, records: seq<Record>)
    | HashMessage(ts: bytes, kind: HashKind, entries: seq<Entry>)
    | CpuSample(ts: bytes, frames: seq<Frame>)

  // ----- ranges of the C types; a string length is held in an int

  const TWO_31: int := 0x8000_0000

  predicate FitsU64(n: int) {
    0 <= n < TWO_64
  }

  predicate FitsText(t: Text) {
    t.Some? ==> |t.value| < TWO_31
  }

  predicate FitsRecord(r: Record) {
    && FitsU64(r.objectId) && FitsText(r.className)
    && |r.references| < TWO_32 && (forall id | id in r.references :: FitsU64(id))
    && FitsText(r.file) && FitsU64(r.line) && FitsU64(r.size)
  }

  predicate FitsFrame(f: Frame) {
    && FitsText(f.methodName) && FitsText(f.fullLabel) && FitsText(f.file)
    && FitsU64(f.line) && FitsU64(f.threadId)
  }

  predicate FitsScalar(s: Scalar) {
    match s
    case Fixnum(n) => -TWO_63 <= n < TWO_63
    case Flonum(bits) => |bits| == 8
    case Words(chars) => |chars| < TWO_31
  }

  predicate Fits(m: Message) {
    && |m.ts| == 8
    && match m
       case ObjCreated(_, id, c) => FitsU64(id) && FitsText(c)
       case ObjDestroyed(_, id) => FitsU64(id)
       case ObjectSpaceDump(_, c, n, rs) =>
         FitsU64(c) && FitsU64(n) && |rs| < TWO_32 && (forall r | r in rs :: FitsRecord(r))
       case HashMessage(_, _, es) =>
         |es| < TWO_32 && (forall e | e in es :: FitsScalar(e.key) && FitsScalar(e.val))
       case CpuSample(_, fs) => |fs| < TWO_32 && (forall f | f in fs :: FitsFrame(f))
       case _ => true
  }

  // ----- the value that carries a message

  function TextValue(t: Text): Value {
    if t.None? then Nil else Str(t.value)
  }

  function NonZero(n: nat): Value {
    if n == 0 then Nil else Int(n)
  }

  function IntValues(ns: seq<nat>): (r: seq<Value>)
    ensures |r| == |ns|
  {
    seq(|ns|, i requires 0 <= i < |ns| => Int(ns[i]))
  }

  function RecordFields(r: Record): seq<Value> {
    [Int(OBJECT_ID), Int(r.objectId),
     Int(CLASS_NAME), TextValue(r.className),
     Int(REFERENCES), Arr(IntValues(r.references)),
     Int(FILE), TextValue(r.file),
     Int(LINE), NonZero(r.line),
     Int(SIZE), NonZero(r.size)]
  }

  function RecordValues(rs: seq<Record>): (r: seq<Value>)
    ensures |r| == |rs|
  {
    seq(|rs|, i requires 0 <= i < |rs| => Map(RecordFields(rs[i])))
  }

  function FrameFields(f: Frame): seq<Value> {
    [Int(METHOD_NAME), TextValue(f.methodName),
     Int(LABEL), TextValue(f.fullLabel),
     Int(FILE), TextValue(f.file),
     Int(LINE), Int(f.line),
     Int(SINGLETON_METHOD), Int(if f.singleton then 1 else 0),
     Int(THREAD_ID), Int(f.threadId)]
  }

  function FrameValues(fs: seq<Frame>): (r: seq<Value>)
    ensures |r| == |fs|
  {
    seq(|fs|, i requires 0 <= i < |fs| => Map(FrameFields(fs[i])))
  }

  function ScalarValue(s: Scalar): Value {
    match s
    case Fixnum(n) => Int(n)
    case Flonum(bits) => Float(bits)
    case Words(chars) => Str(chars)
  }

  function EntryValues(es: seq<Entry>): (r: seq<Value>)
    ensures |r| == 2 * |es|
  {
    if es == [] then [] else [ScalarValue(es[0].key), ScalarValue(es[0].val)] + EntryValues(es[1..])
  }

  function TypeOf(m: Message): nat {
    match m
    case ObjCreated(_, _, _) => OBJ_CREATED
    case ObjDestroyed(_, _) => OBJ_DESTROYED
    case GcStart(_) => GC_START
    case GcEndMark(_) => GC_END_M
    case GcEndSweep(_) => GC_END_S
    case ObjectSpaceDump(_, _, _, _) => OBJECT_SPACE_DUMP
    case HashMessage(_, kind, _) => if kind == GcStats then GC_STATS else HANDSHAKE
    case CpuSample(_, _) => CPU_SAMPLE
  }

  function Header(eventType: nat, ts: bytes): seq<Value> {
    [Int(EVENT_TYPE), Int(eventType), Int(TIMESTAMP), Float(ts)]
  }

  function Payload(v: Value): seq<Value> {
    [Int(PAYLOAD), v]
  }

  function CreatedPayload(objectId: nat, className: Text): Value {
    Map([Int(OBJECT_ID), Int(objectId), Int(CLASS_NAME), TextValue(className)])
  }

  function DestroyedPayload(objectId: nat): Value {
    Map([Int(OBJECT_ID), Int(objectId)])
  }

  function FieldsOf(m: Message): seq<Value> {
    Header(TypeOf(m), m.ts) +
    match m
    case ObjCreated(_, id, c) => Payload(CreatedPayload(id, c))
    case ObjDestroyed(_, id) => Payload(DestroyedPayload(id))
    case ObjectSpaceDump(_, c, n, rs) =>
      [Int(CORRELATION_ID), Int(c), Int(COMPLETE_MESSAGE_COUNT), Int(n)] + Payload(Arr(RecordValues(rs)))
    case HashMessage(_, _, es) => Payload(Map(EntryValues(es)))
    case CpuSample(_, fs) => Payload(Arr(FrameValues(fs)))
    case _ => []
  }

  /**
   The numbers of the protocol (docs/protocol.md, "Event types"): every message
   starts with its type under key 0 and its time under key 1, and a payload comes
   under key 2, all in this order.
   */
  lemma MessageNumbers(m: Message)
    ensures var f := FieldsOf(m);
            var head := (eventType: nat) => [Int(0), Int(eventType), Int(1), Float(m.ts)];
            |f| >= 4 &&
            match m
            case ObjCreated(_, id, c) =>
              var name := if c.None? then Nil else Str(c.value);
              f == head(0) + [Int(2), Map([Int(3), Int(id), Int(4), name])]
            case ObjDestroyed(_, id) => f == head(1) + [Int(2), Map([Int(3), Int(id)])]
            case GcStart(_) => f == head(2)
            case GcEndMark(_) => f == head(3)
            case GcEndSweep(_) => f == head(4)
            case ObjectSpaceDump(_, c, n, rs) =>
              && f == head(5) + [Int(10), Int(c), Int(11), Int(n), Int(2), f[|f| - 1]]
              && f[|f| - 1].Arr? && |f[|f| - 1].items| == |rs|
            case HashMessage(_, kind, es) =>
              && f == head(if kind == GcStats then 6 else 8) + [Int(2), f[|f| - 1]]
              && f[|f| - 1].Map? && |f[|f| - 1].fields| == 2 * |es|
            case CpuSample(_, fs) =>
              && f == head(9) + [Int(2), f[|f| - 1]]
              && f[|f| - 1].Arr? && |f[|f| - 1].items| == |fs|
  {
  }

  /** A dumped object: line 0 and size 0 travel as nil, and nothing else does. */
  lemma RecordNumbers(r: Record)
    ensures var text := (t: Text) => if t.None? then Nil else Str(t.value);
            var f := RecordFields(r);
            && |f| == 12 && f[5].Arr? && |f[5].items| == |r.references|
            && (forall i | 0 <= i < |r.references| :: f[5].items[i] == Int(r.references[i]))
            && f[..5] == [Int(3), Int(r.objectId), Int(4), text(r.className), Int(5)]
            && f[6..] == [Int(6), text(r.file), Int(7), if r.line == 0 then Nil else Int(r.line),
                          Int(8), if r.size == 0 then Nil else Int(r.size)]
  {
  }

  /** A frame of a sample. */
  lemma FrameNumbers(f: Frame)
    ensures var text := (t: Text) => if t.None? then Nil else Str(t.value);
            FrameFields(f) == [Int(12), text(f.methodName), Int(13), text(f.fullLabel), Int(6), text(f.file), Int(7),
                               Int(f.line), Int(14), Int(if f.singleton then 1 else 0), Int(15), Int(f.threadId)]
  {
  }

  function ValueOf(m: Message): Value {
    Map(FieldsOf(m))
  }

  lemma TextEncodable(t: Text)
    requires FitsText(t)
    ensures Encodable(TextValue(t))
  {
    if t.Some? {
      assert TextValue(t).chars == t.value;
    }
  }

  lemma IntsEncodable(ns: seq<nat>)
    requires forall n | n in ns :: FitsU64(n)
    ensures AllEncodable(IntValues(ns))
  {
    forall i | 0 <= i < |ns| ensures Encodable(IntValues(ns)[i]) {
      assert ns[i] in ns;
    }
  }

  lemma RecordEncodable(r: Record)
    requires FitsRecord(r)
    ensures Encodable(Map(RecordFields(r)))
  {
    IntsEncodable(r.references);
    TextEncodable(r.className);
    TextEncodable(r.file);
  }

  lemma RecordsEncodable(rs: seq<Record>)
    requires forall r | r in rs :: FitsRecord(r)
    ensures AllEncodable(RecordValues(rs))
  {
    forall i | 0 <= i < |rs| ensures Encodable(RecordValues(rs)[i]) {
      RecordEncodable(rs[i]);
    }
  }

  lemma FrameEncodable(f: Frame)
    requires FitsFrame(f)
    ensures Encodable(Map(FrameFields(f)))
  {
    TextEncodable(f.methodName);
    TextEncodable(f.fullLabel);
    TextEncodable(f.file);
  }

  lemma FramesEncodable(fs: seq<Frame>)
    requires forall f | f in fs :: FitsFrame(f)
    ensures AllEncodable(FrameValues(fs))
  {
    forall i | 0 <= i < |fs| ensures Encodable(FrameValues(fs)[i]) {
      assert fs[i] in fs;
      FrameEncodable(fs[i]);
    }
  }

  lemma EntriesEncodable(es: seq<Entry>)
    requires forall e | e in es :: FitsScalar(e.key) && FitsScalar(e.val)
    ensures AllEncodable(EntryValues(es))
  {
    if es != [] {
      EntriesEncodable(es[1..]);
      assert es[0] in es;
    }
  }

  lemma MessageEncodable(m: Message)
    requires Fits(m)
    ensures Encodable(ValueOf(m))
  {
    match m
    case ObjCreated(_, id, c) =>
      TextEncodable(c);
      assert Encodable(CreatedPayload(id, c));
    case ObjDestroyed(_, id) =>
      assert Encodable(DestroyedPayload(id));
    case ObjectSpaceDump(_, c, n, rs) =>
      RecordsEncodable(rs);
      assert Encodable(Arr(RecordValues(rs)));
    case HashMessage(_, _, es) =>
      EntriesEncodable(es);
      assert Encodable(Map(EntryValues(es)));
    case CpuSample(_, fs) =>
      FramesEncodable(fs);
      assert Encodable(Arr(FrameValues(fs)));
    case _ =>
  }

  // ----- the client's side

  /** The value stored under an integer key. */
  function Field(fields: seq<Value>, key: nat): Option<Value> {
    if |fields| < 2 then None
    else if fields[0] == Int(key) then Some(fields[1])
    else Field(fields[2..], key)
  }

  function AsMap(v: Value): Option<seq<Value>> {
    if v.Map? then Some(v.fields) else None
  }

  function AsArr(v: Value): Option<seq<Value>> {
    if v.Arr? then Some(v.items) else None
  }

  function AsNat(v: Value): Option<nat> {
    if v.Int? && v.n >= 0 then Some(v.n) else None
  }

  function AsNatOrNil(v: Value): Option<nat> {
    if v.Nil? then Some(0) else AsNat(v)
  }

  function AsText(v: Value): Option<Text> {
    match v
    case Nil => Some(None)
    case Str(s) => Some(Some(s))
    case _ => None
  }

  function AsScalar(v: Value): Option<Scalar> {
    match v
    case Int(n) => Some(Fixnum(n))
    case Float(bits) => Some(Flonum(bits))
    case Str(s) => Some(Words(s))
    case _ => None
  }

  function ReadNats(vs: seq<Value>): Option<seq<nat>> {
    if vs == [] then Some([])
    else
      var n :- AsNat(vs[0]);
      var ns :- ReadNats(vs[1..]);
      Some([n] + ns)
  }

  function NatField(f: seq<Value>, key: nat): Option<nat> {
    var v :- Field(f, key);
    AsNat(v)
  }

  function NatOrNilField(f: seq<Value>, key: nat): Option<nat> {
    var v :- Field(f, key);
    AsNatOrNil(v)
  }

  function TextField(f: seq<Value>, key: nat): Option<Text> {
    var v :- Field(f, key);
    AsText(v)
  }

  function ArrField(f: seq<Value>, key: nat): Option<seq<Value>> {
    var v :- Field(f, key);
    AsArr(v)
  }

  function MapField(f: seq<Value>, key: nat): Option<seq<Value>> {
    var v :- Field(f, key);
    AsMap(v)
  }

  function ReadRecord(v: Value): Option<Record> {
    var f :- AsMap(v);
    var id :- NatField(f, OBJECT_ID);
    var className :- TextField(f, CLASS_NAME);
    var items :- ArrField(f, REFERENCES);
    var refs :- ReadNats(items);
    var file :- TextField(f, FILE);
    var line :- NatOrNilField(f, LINE);
    var size :- NatOrNilField(f, SIZE);
    Some(Record(id, className, refs, file, line, size))
  }

  function ReadRecords(vs: seq<Value>): Option<seq<Record>> {
    if vs == [] then Some([])
    else
      var r :- ReadRecord(vs[0]);
      var rs :- ReadRecords(vs[1..]);
      Some([r] + rs)
  }

  function ReadFrame(v: Value): Option<Frame> {
    var f :- AsMap(v);
    var methodName :- TextField(f, METHOD_NAME);
    var fullLabel :- TextField(f, LABEL);
    var file :- TextField(f, FILE);
    var line :- NatField(f, LINE);
    var singleton :- NatField(f, SINGLETON_METHOD);
    var threadId :- NatField(f, THREAD_ID);
    Some(Frame(methodName, fullLabel, file, line, singleton != 0, threadId))
  }

  function ReadFrames(vs: seq<Value>): Option<seq<Frame>> {
    if vs == [] then Some([])
    else
      var f :- ReadFrame(vs[0]);
      var fs :- ReadFrames(vs[1..]);
      Some([f] + fs)
  }

  function ReadEntries(vs: seq<Value>): Option<seq<Entry>> {
    if |vs| == 0 then Some([])
    else if |vs| == 1 then None
    else
      var k :- AsScalar(vs[0]);
      var x :- AsScalar(vs[1]);
      var es :- ReadEntries(vs[2..]);
      Some([Entry(k, x)] + es)
  }

  function ReadMessage(v: Value): Option<Message> {
    var f :- AsMap(v);
    var t :- NatField(f, EVENT_TYPE);
    var tsV :- Field(f, TIMESTAMP);
    if !tsV.Float? then None else ReadBody(f, t, tsV.bits)
  }

  function ReadBody(f: seq<Value>, t: nat, ts: bytes): Option<Message> {
    if t == GC_START then Some(GcStart(ts))
    else if t == GC_END_M then Some(GcEndMark(ts))
    else if t == GC_END_S then Some(GcEndSweep(ts))
    else if t == OBJ_CREATED then
      var g :- MapField(f, PAYLOAD);
      var id :- NatField(g, OBJECT_ID);
      var className :- TextField(g, CLASS_NAME);
      Some(ObjCreated(ts, id, className))
    else if t == OBJ_DESTROYED then
      var g :- MapField(f, PAYLOAD);
      var id :- NatField(g, OBJECT_ID);
      Some(ObjDestroyed(ts, id))
    else if t == OBJECT_SPACE_DUMP then
      var c :- NatField(f, CORRELATION_ID);
      var n :- NatField(f, COMPLETE_MESSAGE_COUNT);
      var items :- ArrField(f, PAYLOAD);
      var rs :- ReadRecords(items);
      Some(ObjectSpaceDump(ts, c, n, rs))
    else if t == GC_STATS || t == HANDSHAKE then
      var g :- MapField(f, PAYLOAD);
      var es :- ReadEntries(g);
      Some(HashMessage(ts, if t == GC_STATS then GcStats else Handshake, es))
    else if t == CPU_SAMPLE then
      var items :- ArrField(f, PAYLOAD);
      var fs :- ReadFrames(items);
      Some(CpuSample(ts, fs))
    else None
  }

  lemma {:induction false} FieldAt(fields: seq<Value>, i: nat, key: nat)
    requires 2 * i + 1 < |fields| && fields[2 * i] == Int(key)
    requires forall j | 0 <= j < i :: fields[2 * j] != Int(key)
    ensures Field(fields, key) == Some(fields[2 * i + 1])
  {
    if i > 0 {
      assert fields[2 * 0] != Int(key);
      forall j | 0 <= j < i - 1 ensures fields[2..][2 * j] != Int(key) {
        assert fields[2..][2 * j] == fields[2 * (j + 1)];
      }
      FieldAt(fields[2..], i - 1, key);
    }
  }

  lemma {:induction false} ReadNatsBack(ns: seq<nat>)
    ensures ReadNats(IntValues(ns)) == Some(ns)
  {
    if ns != [] {
      assert IntValues(ns)[1..] == IntValues(ns[1..]);
      ReadNatsBack(ns[1..]);
      assert ns == [ns[0]] + ns[1..];
    }
  }

  /** Six fields with distinct keys are each found under their key. */
  lemma SixLookups(f: seq<Value>, k: seq<nat>)
    requires |f| == 12 && |k| == 6
    requires forall i | 0 <= i < 6 :: f[2 * i] == Int(k[i])
    requires forall i, j | 0 <= i < j < 6 :: k[i] != k[j]
    ensures forall i | 0 <= i < 6 :: Field(f, k[i]) == Some(f[2 * i + 1])
  {
    forall i | 0 <= i < 6 ensures Field(f, k[i]) == Some(f[2 * i + 1]) {
      FieldAt(f, i, k[i]);
    }
  }

  lemma RecordLookups(r: Record, f: seq<Value>)
    requires f == RecordFields(r)
    ensures Field(f, OBJECT_ID) == Some(Int(r.objectId))
    ensures Field(f, CLASS_NAME) == Some(TextValue(r.className))
    ensures Field(f, REFERENCES) == Some(Arr(IntValues(r.references)))
    ensures Field(f, FILE) == Some(TextValue(r.file))
    ensures Field(f, LINE) == Some(NonZero(r.line))
    ensures Field(f, SIZE) == Some(NonZero(r.size))
  {
    var k := [OBJECT_ID, CLASS_NAME, REFERENCES, FILE, LINE, SIZE];
    SixLookups(f, k);
    assert Field(f, k[0]).Some? && Field(f, k[1]).Some? && Field(f, k[2]).Some?;
    assert Field(f, k[3]).Some? && Field(f, k[4]).Some? && Field(f, k[5]).Some?;
  }

  lemma ReadRecordBack(r: Record)
    ensures ReadRecord(Map(RecordFields(r))) == Some(r)
  {
    RecordLookups(r, RecordFields(r));
    ReadNatsBack(r.references);
  }

  lemma {:induction false} ReadRecordsBack(rs: seq<Record>)
    ensures ReadRecords(RecordValues(rs)) == Some(rs)
  {
    if rs != [] {
      assert RecordValues(rs)[1..] == RecordValues(rs[1..]);
      ReadRecordBack(rs[0]);
      ReadRecordsBack(rs[1..]);
      assert rs == [rs[0]] + rs[1..];
    }
  }

  lemma FrameLookups(fr: Frame, f: seq<Value>)
    requires f == FrameFields(fr)
    ensures Field(f, METHOD_NAME) == Some(TextValue(fr.methodName))
    ensures Field(f, LABEL) == Some(TextValue(fr.fullLabel))
    ensures Field(f, FILE) == Some(TextValue(fr.file))
    ensures Field(f, LINE) == Some(Int(fr.line))
    ensures Field(f, SINGLETON_METHOD) == Some(Int(if fr.singleton then 1 else 0))
    ensures Field(f, THREAD_ID) == Some(Int(fr.threadId))
  {
    var k := [METHOD_NAME, LABEL, FILE, LINE, SINGLETON_METHOD, THREAD_ID];
    SixLookups(f, k);
    assert Field(f, k[0]).Some? && Field(f, k[1]).Some? && Field(f, k[2]).Some?;
    assert Field(f, k[3]).Some? && Field(f, k[4]).Some? && Field(f, k[5]).Some?;
  }

  lemma ReadFrameBack(fr: Frame)
    ensures ReadFrame(Map(FrameFields(fr))) == Some(fr)
  {
    FrameLookups(fr, FrameFields(fr));
  }

  lemma {:induction false} ReadFramesBack(fs: seq<Frame>)
    ensures ReadFrames(FrameValues(fs)) == Some(fs)
  {
    if fs != [] {
      assert FrameValues(fs)[1..] == FrameValues(fs[1..]);
      ReadFrameBack(fs[0]);
      ReadFramesBack(fs[1..]);
      assert fs == [fs[0]] + fs[1..];
    }
  }

  lemma ReadEntryBack(e: Entry, vs: seq<Value>, es: seq<Entry>)
    requires ReadEntries(vs) == Some(es)
    ensures ReadEntries([ScalarValue(e.key), ScalarValue(e.val)] + vs) == Some([e] + es)
  {
    assert ([ScalarValue(e.key), ScalarValue(e.val)] + vs)[2..] == vs;
  }

  lemma {:induction false} ReadEntriesBack(es: seq<Entry>)
    ensures ReadEntries(EntryValues(es)) == Some(es)
  {
    if es != [] {
      ReadEntriesBack(es[1..]);
      ReadEntryBack(es[0], EntryValues(es[1..]), es[1..]);
      assert es == [es[0]] + es[1..];
    }
  }

  lemma ReadHeader(m: Message)
    ensures ReadMessage(ValueOf(m)) == ReadBody(FieldsOf(m), TypeOf(m), m.ts)
  {
    FieldAt(FieldsOf(m), 0, EVENT_TYPE);
    FieldAt(FieldsOf(m), 1, TIMESTAMP);
  }

  lemma PayloadAt(eventType: nat, ts: bytes, v: Value)
    ensures Field(Header(eventType, ts) + Payload(v), PAYLOAD) == Some(v)
  {
    FieldAt(Header(eventType, ts) + Payload(v), 2, PAYLOAD);
  }

  lemma ReadObjectBodyBack(m: Message)
    requires m.ObjCreated? || m.ObjDestroyed?
    ensures ReadBody(FieldsOf(m), TypeOf(m), m.ts) == Some(m)
  {
    if m.ObjCreated? {
      var p := CreatedPayload(m.objectId, m.className);
      PayloadAt(OBJ_CREATED, m.ts, p);
      FieldAt(p.fields, 0, OBJECT_ID);
      FieldAt(p.fields, 1, CLASS_NAME);
    } else {
      var p := DestroyedPayload(m.objectId);
      PayloadAt(OBJ_DESTROYED, m.ts, p);
      FieldAt(p.fields, 0, OBJECT_ID);
    }
  }

  lemma ReadDumpBodyBack(m: Message)
    requires m.ObjectSpaceDump?
    ensures ReadBody(FieldsOf(m), TypeOf(m), m.ts) == Some(m)
  {
    var f := FieldsOf(m);
    FieldAt(f, 2, CORRELATION_ID);
    FieldAt(f, 3, COMPLETE_MESSAGE_COUNT);
    FieldAt(f, 4, PAYLOAD);
    ReadRecordsBack(m.records);
  }

  lemma ReadOtherBodyBack(m: Message)
    requires !m.ObjCreated? && !m.ObjDestroyed? && !m.ObjectSpaceDump?
    ensures ReadBody(FieldsOf(m), TypeOf(m), m.ts) == Some(m)
  {
    if m.HashMessage? {
      PayloadAt(TypeOf(m), m.ts, Map(EntryValues(m.entries)));
      ReadEntriesBack(m.entries);
    } else if m.CpuSample? {
      PayloadAt(TypeOf(m), m.ts, Arr(FrameValues(m.frames)));
      ReadFramesBack(m.frames);
    }
  }

  /** Looking every field up by key in the value of a message gives the message. */
  lemma ReadMessageBack(m: Message)
    ensures ReadMessage(ValueOf(m)) == Some(m)
  {
    ReadHeader(m);
    if m.ObjCreated? || m.ObjDestroyed? {
      ReadObjectBodyBack(m);
    } else if m.ObjectSpaceDump? {
      ReadDumpBodyBack(m);
    } else {
      ReadOtherBodyBack(m);
    }
  }

  /** The bytes of one message. */
  function Wire(m: Message): (r: bytes)
    ensures |r| >= 1
  {
    Enc(ValueOf(m))
  }

  /** Receives one message off the front of a byte string. */
  function Receive(b: bytes): Option<(Message, bytes)> {
    var (v, rest) :- Decode(b);
    var m :- ReadMessage(v);
    Some((m, rest))
  }

  /** Codec round trip: a message comes back whole, and nothing of what follows it is touched. */
  lemma MessageRoundTrip(m: Message, rest: bytes)
    requires Fits(m)
    ensures Receive(Wire(m) + rest) == Some((m, rest))
  {
    MessageEncodable(m);
    DecodeEnc(ValueOf(m), rest);
    ReadMessageBack(m);
  }
}
