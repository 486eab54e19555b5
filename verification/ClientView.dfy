/**
 What a client makes of the published stream: heap dumps are put together again
 from the messages that share a correlation id.
 */
module ClientView {
  import opened MessagePack
  import opened Messages
  import opened Sequences
  import opened Collections
  import opened PublishProtocol
  import opened Publishing
  import opened DumpStream

  /** One thing the server put into the queue: a whole heap dump or any other message. */
  datatype Item =
    | Dump(records: seq<Record>, clock: nat -> bytes)
    | Other(m: Message)

  predicate Sensible(item: Item) {
    item.Other? ==> !item.m.ObjectSpaceDump?
  }

  /** The messages of an item; a dump goes out under the given correlation id. */
  function MessagesOf(item: Item, id: nat, batchSize: nat): seq<Message>
    requires batchSize > 0
  {
    match item
    case Dump(rs, clock) => DumpMessages(id, rs, batchSize, clock)
    case Other(m) => [m]
  }

  /** The messages of a run; dumps are numbered from `id` on. */
  function Queued(items: seq<Item>, id: nat, batchSize: nat): seq<Message>
    requires batchSize > 0
  {
    if items == [] then []
    else
      MessagesOf(items[0], id, batchSize)
      + Queued(items[1..], if items[0].Dump? then id + 1 else id, batchSize)
  }

  /** The correlation id of item i. */
  function IdOf(items: seq<Item>, i: nat, id: nat): nat
    requires i < |items|
  {
    if i == 0 then id else IdOf(items[1..], i - 1, if items[0].Dump? then id + 1 else id)
  }

  predicate PartOf(m: Message, id: nat) {
    m.ObjectSpaceDump? && m.correlationId == id
  }

  /** The client groups by correlation id and concatenates. */
  function Reassemble(ms: seq<Message>, id: nat): seq<Record> {
    if ms == [] then []
    else (if PartOf(ms[0], id) then ms[0].records else []) + Reassemble(ms[1..], id)
  }

  /** Every message of a group announces the size of the whole. */
  predicate Announces(ms: seq<Message>, id: nat, count: nat) {
    forall m | m in ms && PartOf(m, id) :: m.completeCount == count
  }

  lemma Associates<T>(a: seq<T>, b: seq<T>, c: seq<T>)
    ensures a + (b + c) == a + b + c
  {
  }

  lemma {:induction false} ReassembleConcat(a: seq<Message>, b: seq<Message>, id: nat)
    ensures Reassemble(a + b, id) == Reassemble(a, id) + Reassemble(b, id)
  {
    if a == [] {
      assert a + b == b;
    } else {
      ReassembleConcat(a[1..], b, id);
      assert (a + b)[0] == a[0] && (a + b)[1..] == a[1..] + b;
      Associates(if PartOf(a[0], id) then a[0].records else [], Reassemble(a[1..], id), Reassemble(b, id));
    }
  }

  /** A suffix of a dump's messages reassembles to the rest of its batches. */
  lemma {:induction false} ReassembleBatches(ms: seq<Message>, bs: seq<seq<Record>>, own: nat, id: nat)
    requires |ms| == |bs|
    requires forall i | 0 <= i < |ms| :: PartOf(ms[i], own) && ms[i].records == bs[i]
    ensures Reassemble(ms, id) == if id == own then Flat(bs) else []
  {
    if ms != [] {
      ReassembleBatches(ms[1..], bs[1..], own, id);
    }
  }

  lemma ReassembleDump(id: nat, rs: seq<Record>, batchSize: nat, clock: nat -> bytes, other: nat)
    requires batchSize > 0
    ensures Reassemble(DumpMessages(id, rs, batchSize, clock), other) == if other == id then rs else []
  {
    ReassembleBatches(DumpMessages(id, rs, batchSize, clock), Batches(rs, batchSize), id, other);
    BatchesFlat(rs, batchSize);
  }

  /** An id not yet given out occurs nowhere. */
  lemma {:induction false} EarlierIdsUnused(items: seq<Item>, id: nat, batchSize: nat, k: nat)
    requires batchSize > 0 && k < id && All(Sensible, items)
    ensures Reassemble(Queued(items, id, batchSize), k) == []
    ensures forall m | m in Queued(items, id, batchSize) :: !PartOf(m, k)
  {
    if items != [] {
      var next := if items[0].Dump? then id + 1 else id;
      assert All(Sensible, items[1..]);
      EarlierIdsUnused(items[1..], next, batchSize, k);
      if items[0].Dump? {
        ReassembleDump(id, items[0].records, batchSize, items[0].clock, k);
        ReassembleConcat(DumpMessages(id, items[0].records, batchSize, items[0].clock),
                         Queued(items[1..], next, batchSize), k);
      } else {
        assert Sensible(items[0]);
        ReassembleConcat([items[0].m], Queued(items[1..], next, batchSize), k);
      }
    }
  }

  /**
   Client reassembly: in any run of dumps and other messages, the messages under
   a dump's correlation id concatenate to exactly that dump, and each of them
   announces its total length.
   */
  lemma {:induction false} ClientReassembly(items: seq<Item>, id: nat, batchSize: nat, i: nat)
    requires batchSize > 0 && i < |items| && items[i].Dump? && All(Sensible, items)
    ensures IdOf(items, i, id) >= id
    ensures Reassemble(Queued(items, id, batchSize), IdOf(items, i, id)) == items[i].records
    ensures Announces(Queued(items, id, batchSize), IdOf(items, i, id), |items[i].records|)
  {
    var next := if items[0].Dump? then id + 1 else id;
    var rest := Queued(items[1..], next, batchSize);
    var k := IdOf(items, i, id);
    assert All(Sensible, items[1..]);
    if i == 0 {
      EarlierIdsUnused(items[1..], next, batchSize, id);
      ReassembleDump(id, items[0].records, batchSize, items[0].clock, id);
      ReassembleConcat(DumpMessages(id, items[0].records, batchSize, items[0].clock), rest, id);
    } else {
      ClientReassembly(items[1..], next, batchSize, i - 1);
      if items[0].Dump? {
        ReassembleDump(id, items[0].records, batchSize, items[0].clock, k);
        ReassembleConcat(DumpMessages(id, items[0].records, batchSize, items[0].clock), rest, k);
      } else {
        assert Sensible(items[0]);
        ReassembleConcat([items[0].m], rest, k);
      }
    }
  }

  /** Distinct dumps have distinct correlation ids. */
  lemma {:induction false} DistinctIds(items: seq<Item>, id: nat, i: nat, j: nat)
    requires i < j < |items| && items[i].Dump? && items[j].Dump?
    ensures id <= IdOf(items, i, id) < IdOf(items, j, id)
  {
    var next := if items[0].Dump? then id + 1 else id;
    if i == 0 {
      IdAtLeast(items[1..], j - 1, next);
    } else {
      DistinctIds(items[1..], next, i - 1, j - 1);
    }
  }

  lemma {:induction false} IdAtLeast(items: seq<Item>, j: nat, id: nat)
    requires j < |items|
    ensures IdOf(items, j, id) >= id
  {
    if j > 0 {
      IdAtLeast(items[1..], j - 1, if items[0].Dump? then id + 1 else id);
    }
  }

  // ----- a stream as it grows

  function DumpCount(items: seq<Item>): nat {
    if items == [] then 0 else (if items[0].Dump? then 1 else 0) + DumpCount(items[1..])
  }

  lemma {:induction false} QueuedSnoc(items: seq<Item>, item: Item, id: nat, batchSize: nat)
    requires batchSize > 0
    ensures Queued(items + [item], id, batchSize)
         == Queued(items, id, batchSize) + MessagesOf(item, id + DumpCount(items), batchSize)
  {
    var all := items + [item];
    if items == [] {
      assert all[1..] == [];
    } else {
      var next := if items[0].Dump? then id + 1 else id;
      assert all[0] == items[0] && all[1..] == items[1..] + [item];
      QueuedSnoc(items[1..], item, next, batchSize);
      Associates(MessagesOf(items[0], id, batchSize), Queued(items[1..], next, batchSize),
                 MessagesOf(item, id + DumpCount(items), batchSize));
    }
  }

  lemma {:induction false} DumpCountSnoc(items: seq<Item>, item: Item)
    ensures DumpCount(items + [item]) == DumpCount(items) + if item.Dump? then 1 else 0
  {
    var all := items + [item];
    if items == [] {
      assert all[1..] == [];
    } else {
      assert all[0] == items[0] && all[1..] == items[1..] + [item];
      DumpCountSnoc(items[1..], item);
    }
  }

  /** The queued stream is that of the items, whose dumps are numbered 1, 2, ... up to the last id. */
  predicate Recorded(stream: seq<Message>, items: seq<Item>, batchSize: nat, lastId: nat) {
    && batchSize > 0 && All(Sensible, items)
    && stream == Queued(items, 1, batchSize) && lastId == DumpCount(items)
  }

  lemma RecordedSnoc(stream: seq<Message>, items: seq<Item>, batchSize: nat, lastId: nat, item: Item)
    requires Recorded(stream, items, batchSize, lastId) && Sensible(item)
    ensures Recorded(stream + MessagesOf(item, lastId + 1, batchSize), items + [item], batchSize,
                     if item.Dump? then lastId + 1 else lastId)
  {
    QueuedSnoc(items, item, 1, batchSize);
    DumpCountSnoc(items, item);
    AllSnoc(Sensible, items, item);
  }

  lemma {:induction false} IdAtMost(items: seq<Item>, i: nat, id: nat)
    requires i < |items| && items[i].Dump?
    ensures IdOf(items, i, id) < id + DumpCount(items)
  {
    if i > 0 {
      IdAtMost(items[1..], i - 1, if items[0].Dump? then id + 1 else id);
    }
  }

  // ----- what a subscriber has

  function Received(bs: seq<Batch>): seq<Message> {
    Joined(MapSeq(Part, bs))
  }
}
