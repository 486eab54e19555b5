/**
 Sending a heap dump: a cursor over the pages packs one batch of records at a
 time and frees every page and every references array as soon as it is done
 with it.
 */
module DumpStream {
  import opened MessagePack
  import opened Messages
  import opened Sequences
  import opened Packers
  import opened AllocationInfo
  import opened ObjectGraph

  lemma ArraysNext(slots: seq<ObjectData>, i: nat)
    requires Unshared(slots) && i < |slots|
    ensures slots[i].references != null ==> slots[i].references in Arrays(slots, i)
    ensures Arrays(slots, i + 1) == Arrays(slots, i) - {slots[i].references}
  {
    var a := slots[i].references;
    assert slots[i..][0] == slots[i];
    forall x ensures x in Arrays(slots, i + 1) <==> x in Arrays(slots, i) && x != a {
      if x in Arrays(slots, i + 1) {
        var k :| 0 <= k < |slots| - i - 1 && slots[i + 1..][k].references == x;
        assert slots[i..][k + 1] == slots[i + 1 + k];
        assert x != a;
      }
    }
  }

  lemma PagesDistinct(pages: seq<Page>, pageSize: nat)
    requires Layout(pages, pageSize)
    ensures Distinct(pages)
  {
    forall i, j | 0 <= i < j < |pages| ensures pages[i] != pages[j] {
      assert Apart(pages[i], pages[j], pageSize);
    }
  }

  class ObjectSpaceDumpEvent {
    const dump: ObjectDump
    const arena: Arena
    const tables: Tables
    const correlationId: nat
    var packedObjects: nat
    var objectCount: nat
    var currentPage: Page?
    var currentPageIndex: nat
    ghost var cur: nat  // the position of the current page

    /** The dump as it was built; streaming frees it but does not overwrite it. */
    ghost predicate Intact()
      reads dump, dump.pages, set p | p in dump.pages :: p.data, set d | d in dump.slots :: d.references
    {
      && dump.Chain() && dump.Filled() && dump.Described() && Unshared(dump.slots)
      && dump.pages != [] && dump.last.count > 0
      && All(FitsRecord, dump.records)
    }

    ghost predicate Cursor()
      reads this, dump, dump.pages
    {
      && cur < |dump.pages| && currentPage == dump.pages[cur]
      && currentPageIndex <= currentPage.count
      && packedObjects == currentPage.base + currentPageIndex
      && objectCount == |dump.slots| == |dump.records|
    }

    /** What is still allocated: the pages from the current one on, the arrays of the objects not yet packed. */
    ghost predicate Remaining()
      reads this, dump, arena, tables
    {
      && cur <= |dump.pages| && arena.pages == From(dump.pages, cur)
      && packedObjects <= |dump.slots| && arena.arrays == Arrays(dump.slots, packedObjects)
      && dump.strings <= tables.strings
    }

    ghost predicate Valid()
      reads this, dump, arena, tables
      reads dump.pages, set p | p in dump.pages :: p.data, set d | d in dump.slots :: d.references
    {
      Intact() && Cursor() && Remaining()
    }

    constructor (dump: ObjectDump, tables: Tables, correlationId: nat)
      requires dump.Complete() && All(FitsRecord, dump.records) && dump.strings <= tables.strings
      ensures Valid() && packedObjects == 0 && objectCount == |dump.records|
      ensures this.dump == dump && this.arena == dump.arena && this.tables == tables
      ensures this.correlationId == correlationId
    {
      this.dump, this.arena, this.tables := dump, dump.arena, tables;
      packedObjects := 0;
      objectCount := dump.objectCount;
      currentPage := dump.first;
      currentPageIndex := 0;
      this.correlationId := correlationId;
      cur := 0;
    }

    /** The cursor is never past the last page while objects are left. */
    lemma PositionInPage()
      requires Intact() && Cursor() && packedObjects < objectCount
      ensures currentPageIndex == dump.pageSize ==>
                && cur + 1 < |dump.pages| && currentPage.next == dump.pages[cur + 1]
                && packedObjects == dump.pages[cur + 1].base && dump.pages[cur + 1].count > 0
      ensures currentPageIndex != dump.pageSize ==> currentPageIndex < currentPage.count
    {
      if cur + 1 < |dump.pages| {
        assert Linked(dump.pages, cur, dump.pageSize);
        assert Follows(dump.pages, cur + 1, dump.pageSize);
        if cur + 2 < |dump.pages| {
          assert Linked(dump.pages, cur + 1, dump.pageSize);
        }
      }
    }

    /** Moves on from a used-up page and frees it. */
    method TurnPage()
      requires Valid() && packedObjects < objectCount
      modifies this`currentPage, this`currentPageIndex, this`cur, arena
      ensures Valid() && currentPageIndex < currentPage.count
      ensures arena.arrays == old(arena.arrays)
    {
      PositionInPage();
      PagesDistinct(dump.pages, dump.pageSize);
      FromNext(dump.pages, cur);
      if currentPageIndex == dump.pageSize {
        currentPageIndex := 0;
        var prev := currentPage;
        currentPage := arena.Next(currentPage);
        arena.FreePage(prev);
        cur := cur + 1;
      }
    }

    method PackReferences(packer: Packer, d: ObjectData, ghost r: Record)
      requires Describes(d, r) && FitsRecord(r)
      requires d.references == null || d.references in arena.arrays
      requires null !in arena.arrays
      modifies packer, arena`arrays
      ensures packer.buf == old(packer.buf) + EncAll(RecordFields(r)[4..6])
      ensures arena.arrays == old(arena.arrays) - {d.references}
    {
      ghost var start := packer.buf;
      packer.PackInt(REFERENCES);
      ghost var atArray := packer.buf;
      packer.PackArray(d.referenceCount);
      if d.referenceCount != 0 {
        PackIds(packer, d.references, d.referenceCount, r.references);
        arena.FreeArray(d.references);
      } else {
        assert packer.buf + [] == packer.buf && IntValues(r.references) == [];
      }
      CloseArr(atArray, IntValues(r.references));
      OneField(start, RecordFields(r)[4..6]);
    }

    method PackIds(packer: Packer, a: array<nat>, n: nat, ghost ids: seq<nat>)
      requires a in arena.arrays && n == a.Length && a[..] == ids
      requires forall id | id in ids :: FitsU64(id)
      modifies packer
      ensures packer.buf == old(packer.buf) + EncAll(IntValues(ids))
    {
      ghost var start := packer.buf;
      for count := 0 to n
        invariant packer.buf + EncAll(IntValues(ids[count..])) == start + EncAll(IntValues(ids))
      {
        ghost var before := packer.buf;
        var id := arena.Element(a, count);
        assert id == ids[count] && ids[count] in ids;
        packer.PackUnsigned(id);
        assert IntValues(ids[count..])[1..] == IntValues(ids[count + 1..]);
        NextItem(before, IntValues(ids[count..]));
      }
      assert ids[n..] == [];
    }

    method PackIdentity(packer: Packer, d: ObjectData, ghost r: Record)
      requires Describes(d, r) && FitsRecord(r)
      modifies packer
      ensures packer.buf == old(packer.buf) + EncAll(RecordFields(r)[..4])
    {
      ghost var start := packer.buf;
      packer.PackInt(OBJECT_ID);
      packer.PackUnsigned(d.objectId);
      packer.PackInt(CLASS_NAME);
      packer.PackString(d.className);
      TwoFields(start, RecordFields(r)[..4]);
    }

    method PackOrNil(packer: Packer, n: nat)
      requires FitsU64(n)
      modifies packer
      ensures packer.buf == old(packer.buf) + Enc(NonZero(n))
    {
      if n == 0 {
        packer.PackNil();
      } else {
        packer.PackUnsigned(n);
      }
    }

    method PackOrigin(packer: Packer, d: ObjectData, ghost r: Record)
      requires Describes(d, r) && FitsRecord(r)
      requires d.file == null || d.file in tables.strings
      modifies packer
      ensures packer.buf == old(packer.buf) + EncAll(RecordFields(r)[6..])
    {
      ghost var start := packer.buf;
      packer.PackInt(FILE);
      var file := tables.ReadString(d.file);
      packer.PackString(file);
      packer.PackInt(LINE);
      PackOrNil(packer, d.line);
      packer.PackInt(SIZE);
      PackOrNil(packer, d.size);
      ThreeFields(start, RecordFields(r)[6..]);
    }

    /** One object as a six-entry map. Its references array is freed. */
    method PackObject(packer: Packer, d: ObjectData, ghost r: Record)
      requires Describes(d, r) && FitsRecord(r)
      requires d.references == null || d.references in arena.arrays
      requires null !in arena.arrays
      requires d.file == null || d.file in tables.strings
      modifies packer, arena`arrays
      ensures packer.buf == old(packer.buf) + Enc(Map(RecordFields(r)))
      ensures arena.arrays == old(arena.arrays) - {d.references}
    {
      ghost var start := packer.buf;
      packer.PackMap(6);
      ghost var inMap := packer.buf;
      PackIdentity(packer, d, r);
      PackReferences(packer, d, r);
      PackOrigin(packer, d, r);
      ThreeParts(inMap, RecordFields(r));
      CloseMap(start, RecordFields(r));
    }

    /** One round of the packing loop. */
    method PackNext(packer: Packer)
      requires Valid() && packedObjects < objectCount
      modifies packer, this`currentPage, this`currentPageIndex, this`packedObjects, this`cur, arena
      ensures Valid() && packedObjects == old(packedObjects) + 1
      ensures packer.buf == old(packer.buf) + Enc(Map(RecordFields(dump.records[old(packedObjects)])))
    {
      TurnPage();
      var d := CurrentObject();
      PackObject(packer, d, dump.records[packedObjects]);
      Advance();
    }

    method Advance()
      requires Intact() && Cursor() && currentPageIndex < currentPage.count && packedObjects < |dump.slots|
      requires arena.pages == From(dump.pages, cur) && arena.arrays == Arrays(dump.slots, packedObjects + 1)
      requires dump.strings <= tables.strings
      modifies this`currentPageIndex, this`packedObjects
      ensures Valid() && packedObjects == old(packedObjects) + 1
    {
      currentPageIndex := currentPageIndex + 1;
      packedObjects := packedObjects + 1;
    }

    method CurrentObject() returns (d: ObjectData)
      requires Valid() && currentPageIndex < currentPage.count
      ensures packedObjects < |dump.records| && d == dump.slots[packedObjects]
      ensures Describes(d, dump.records[packedObjects]) && FitsRecord(dump.records[packedObjects])
      ensures d.references == null || d.references in arena.arrays
      ensures Arrays(dump.slots, packedObjects + 1) == arena.arrays - {d.references}
      ensures d.file == null || d.file in tables.strings
    {
      assert PageHolds(dump.pages[cur], dump.slots);
      PagesDistinct(dump.pages, dump.pageSize);
      FromNext(dump.pages, cur);
      d := arena.Slot(currentPage, currentPageIndex);
      ArraysNext(dump.slots, packedObjects);
      assert Describes(dump.slots[packedObjects], dump.records[packedObjects]);
    }

    /** How many objects the next message takes. */
    function BatchLength(batchSize: nat): nat
      requires packedObjects <= objectCount
      reads this
    {
      if objectCount - packedObjects < batchSize then objectCount - packedObjects else batchSize
    }

    method PackObjects(packer: Packer, n: nat)
      requires Valid() && packedObjects + n <= objectCount
      modifies packer, this`currentPage, this`currentPageIndex, this`packedObjects, this`cur, arena
      ensures Valid() && packedObjects == old(packedObjects) + n
      ensures packer.buf == old(packer.buf) + EncAll(RecordValues(dump.records[old(packedObjects)..packedObjects]))
    {
      ghost var end, goal := packedObjects + n, packer.buf + Pending(packedObjects + n);
      for count := 0 to n
        invariant Valid() && packedObjects == old(packedObjects) + count
        invariant packer.buf + Pending(end) == goal
      {
        PackOneOf(packer, end, goal);
      }
      assert Pending(end) == [] && packer.buf + [] == packer.buf;
    }

    /** What the objects from the cursor up to `end` will add. */
    ghost function Pending(end: nat): bytes
      requires packedObjects <= end <= |dump.records|
      reads this`packedObjects, dump`records
    {
      EncAll(RecordValues(dump.records[packedObjects..end]))
    }

    method PackOneOf(packer: Packer, ghost end: nat, ghost goal: bytes)
      requires Valid() && packedObjects < end <= objectCount && packer.buf + Pending(end) == goal
      modifies packer, this`currentPage, this`currentPageIndex, this`packedObjects, this`cur, arena
      ensures Valid() && packedObjects == old(packedObjects) + 1
      ensures packer.buf + Pending(end) == goal
    {
      NextRecord(packer.buf, dump.records, packedObjects, end);
      PackNext(packer);
    }

    method PackDumpHeader(packer: Packer, ts: bytes)
      requires |ts| == 8 && correlationId < TWO_31 && objectCount < TWO_64
      modifies packer
      ensures packer.buf == old(packer.buf) + EncAll(DumpHeader(ts, correlationId, objectCount))
    {
      ghost var start := packer.buf;
      packer.PackHeader(OBJECT_SPACE_DUMP, ts);
      ghost var afterHeader := packer.buf;
      packer.PackInt(CORRELATION_ID);
      packer.PackInt(correlationId);
      packer.PackInt(COMPLETE_MESSAGE_COUNT);
      packer.PackUnsigned(objectCount);
      TwoFields(afterHeader, DumpHeader(ts, correlationId, objectCount)[4..]);
      assert DumpHeader(ts, correlationId, objectCount)[..4] == Header(OBJECT_SPACE_DUMP, ts);
      JoinFields(start, DumpHeader(ts, correlationId, objectCount), 4);
    }

    /** The next message of the dump: at most batchSize objects, in order. */
    method PackObjectSpaceDumpEvent(packer: Packer, ts: bytes, batchSize: nat)
      requires Valid() && |ts| == 8 && correlationId < TWO_31 && objectCount < TWO_64
      requires batchSize < TWO_32
      modifies packer, this`currentPage, this`currentPageIndex, this`packedObjects, this`cur, arena
      ensures Valid() && packedObjects == old(packedObjects + BatchLength(batchSize))
      ensures packer.buf == old(packer.buf)
              + Wire(ObjectSpaceDump(ts, correlationId, objectCount, dump.records[old(packedObjects)..packedObjects]))
    {
      ghost var start, first := packer.buf, packedObjects;
      packer.PackMap(5);
      PackDumpHeader(packer, ts);
      packer.PackInt(PAYLOAD);
      PackBatch(packer, BatchLength(batchSize));
      CloseDump(start, ts, correlationId, objectCount, dump.records[first..packedObjects]);
    }

    method PackBatch(packer: Packer, objectsInBatch: nat)
      requires Valid() && packedObjects + objectsInBatch <= objectCount && objectsInBatch < TWO_32
      modifies packer, this`currentPage, this`currentPageIndex, this`packedObjects, this`cur, arena
      ensures Valid() && packedObjects == old(packedObjects) + objectsInBatch
      ensures packer.buf
           == old(packer.buf) + Enc(Arr(RecordValues(dump.records[old(packedObjects)..packedObjects])))
    {
      ghost var start, first := packer.buf, packedObjects;
      packer.PackArray(objectsInBatch);
      PackObjects(packer, objectsInBatch);
      CloseArr(start, RecordValues(dump.records[first..packedObjects]));
    }

    lemma AtLastPage()
      requires Intact() && Cursor() && packedObjects == objectCount
      ensures cur == |dump.pages| - 1
    {
      assert PageHolds(dump.pages[cur], dump.slots);
      assert cur < |dump.pages| - 1 ==> Apart(dump.pages[cur], dump.pages[|dump.pages| - 1], dump.pageSize);
    }

    /** With every object packed, the only block left is the page the driver frees. */
    method FreeLastPage()
      requires Valid() && packedObjects == objectCount
      modifies arena
      ensures arena.pages == {} && arena.arrays == {}
    {
      AtLastPage();
      PagesDistinct(dump.pages, dump.pageSize);
      FromNext(dump.pages, cur);
      arena.FreePage(currentPage);
    }
  }

  function DumpHeader(ts: bytes, correlationId: nat, count: nat): seq<Value> {
    Header(OBJECT_SPACE_DUMP, ts) + [Int(CORRELATION_ID), Int(correlationId), Int(COMPLETE_MESSAGE_COUNT), Int(count)]
  }

  lemma NextRecord(b: bytes, rs: seq<Record>, i: nat, end: nat)
    requires i < end <= |rs|
    ensures b + Enc(Map(RecordFields(rs[i]))) + EncAll(RecordValues(rs[i + 1..end]))
         == b + EncAll(RecordValues(rs[i..end]))
  {
    NextItem(b, RecordValues(rs[i..end]));
    assert RecordValues(rs[i..end])[1..] == RecordValues(rs[i + 1..end]);
  }

  lemma CloseDump(start: bytes, ts: bytes, correlationId: nat, count: nat, rs: seq<Record>)
    ensures start + EncHead(MapHead(5)) + EncAll(DumpHeader(ts, correlationId, count)) + Enc(Int(PAYLOAD))
            + Enc(Arr(RecordValues(rs)))
         == start + Wire(ObjectSpaceDump(ts, correlationId, count, rs))
  {
    var inMap, header, payload := start + EncHead(MapHead(5)), DumpHeader(ts, correlationId, count),
                                  Payload(Arr(RecordValues(rs)));
    OneField(inMap + EncAll(header), payload);
    JoinLists(inMap, header, payload);
    assert FieldsOf(ObjectSpaceDump(ts, correlationId, count, rs)) == header + payload;
    CloseMap(start, header + payload);
  }

  lemma ThreeParts(b: bytes, f: seq<Value>)
    requires |f| == 12
    ensures b + EncAll(f[..4]) + EncAll(f[4..6]) + EncAll(f[6..]) == b + EncAll(f)
  {
    JoinLists(b, f[..4], f[4..6]);
    JoinLists(b, f[..4] + f[4..6], f[6..]);
    assert f[..4] + f[4..6] + f[6..] == f;
  }

  // ----- how a dump is cut into messages

  /** Consecutive batches of B records, the last one possibly shorter. */
  function Batches(records: seq<Record>, batchSize: nat): seq<seq<Record>>
    requires batchSize > 0
    decreases |records|
  {
    if records == [] then []
    else if |records| <= batchSize then [records]
    else [records[..batchSize]] + Batches(records[batchSize..], batchSize)
  }

  function Flat(bs: seq<seq<Record>>): seq<Record> {
    if bs == [] then [] else bs[0] + Flat(bs[1..])
  }

  /** Cutting loses nothing and keeps the order. */
  lemma {:induction false} BatchesFlat(records: seq<Record>, batchSize: nat)
    requires batchSize > 0
    ensures Flat(Batches(records, batchSize)) == records
    decreases |records|
  {
    if |records| > batchSize {
      var rest := Batches(records[batchSize..], batchSize);
      BatchesFlat(records[batchSize..], batchSize);
      assert ([records[..batchSize]] + rest)[1..] == rest;
      assert records == records[..batchSize] + records[batchSize..];
    } else if records != [] {
      assert [records][1..] == [] && records + [] == records;
    }
  }

  lemma OneMoreBatch(n: nat, k: int, batchSize: nat)
    requires batchSize < n && (k - 1) * batchSize < n - batchSize <= k * batchSize
    ensures k * batchSize < n <= (k + 1) * batchSize
  {
    assert (k + 1) * batchSize == k * batchSize + batchSize;
    assert (k - 1) * batchSize == k * batchSize - batchSize;
  }

  /** There are ceil(n / B) batches, all but the last of exactly B records and the last of 1 to B. */
  lemma {:induction false} BatchSizes(records: seq<Record>, batchSize: nat)
    requires batchSize > 0
    ensures var bs := Batches(records, batchSize);
            && (|bs| - 1) * batchSize < |records| <= |bs| * batchSize
            && (forall i | 0 <= i < |bs| - 1 :: |bs[i]| == batchSize)
            && (records != [] ==> 1 <= |bs[|bs| - 1]| <= batchSize)
    decreases |records|
  {
    if |records| > batchSize {
      BatchSizes(records[batchSize..], batchSize);
      OneMoreBatch(|records|, |Batches(records[batchSize..], batchSize)|, batchSize);
    }
  }

  /** How many of n records the first i batches hold. */
  function Offset(n: nat, batchSize: nat, i: nat): (r: nat)
    requires batchSize > 0
    ensures r <= n
  {
    if i == 0 then 0
    else
      var before := Offset(n, batchSize, i - 1);
      if n - before < batchSize then n else before + batchSize
  }

  lemma {:induction false} OffsetShift(n: nat, batchSize: nat, i: nat)
    requires 0 < batchSize <= n
    ensures Offset(n, batchSize, i + 1) == batchSize + Offset(n - batchSize, batchSize, i)
  {
    if i > 0 {
      OffsetShift(n, batchSize, i - 1);
    }
  }

  lemma {:induction false} OffsetOfOne(n: nat, batchSize: nat, i: nat)
    requires 0 < i && n <= batchSize && batchSize > 0
    ensures Offset(n, batchSize, i) == n
  {
    if i > 1 {
      OffsetOfOne(n, batchSize, i - 1);
    }
  }

  /** Batch i is the records between two offsets, and there is one as long as records are left. */
  lemma {:induction false} BatchAt(records: seq<Record>, batchSize: nat, i: nat)
    requires batchSize > 0
    ensures i < |Batches(records, batchSize)| <==> Offset(|records|, batchSize, i) < |records|
    ensures var bs, n := Batches(records, batchSize), |records|;
            i < |bs| ==> bs[i] == records[Offset(n, batchSize, i)..Offset(n, batchSize, i + 1)]
    decreases |records|
  {
    var n := |records|;
    if n <= batchSize {
      OffsetOfOne(n, batchSize, i + 1);
      if i > 0 {
        OffsetOfOne(n, batchSize, i);
      }
    } else if i > 0 {
      BatchAt(records[batchSize..], batchSize, i - 1);
      OffsetShift(n, batchSize, i - 1);
      OffsetShift(n, batchSize, i);
    } else {
      assert Offset(n, batchSize, 1) == batchSize;
    }
  }

  /** The messages that carry a dump; message i is stamped with clock(i). */
  function DumpMessages(id: nat, records: seq<Record>, batchSize: nat, clock: nat -> bytes): (r: seq<Message>)
    requires batchSize > 0
    ensures |r| == |Batches(records, batchSize)|
  {
    var bs := Batches(records, batchSize);
    seq(|bs|, i requires 0 <= i < |bs| => ObjectSpaceDump(clock(i), id, |records|, bs[i]))
  }
}
