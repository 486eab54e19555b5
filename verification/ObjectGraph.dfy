/**
 A heap dump in memory: records in a linked list of fixed-size pages, and for
 each record with references an array that grows while the object's references
 are walked. Pages and arrays are freed by hand; an arena knows which are live.
 */
module ObjectGraph {
  import opened Wrappers
  import opened Messages
  import opened Sequences
  import opened AllocationInfo

  /** One slot of a page, as the C struct. */
  datatype ObjectData = ObjectData(
    objectId: nat, className: Text, references: array?<nat>, referenceCount: nat, file: CString?, line: nat, size: nat)

  const BLANK := ObjectData(0, None, null, 0, null, 0, 0)

  class Page {
    const data: array<ObjectData>
    var count: nat
    var next: Page?
    ghost const base: nat  // how many records come before this page

    constructor (pageSize: nat, ghost base: nat)
      ensures data.Length == pageSize && fresh(data)
      ensures count == 0 && next == null && this.base == base
    {
      data := new ObjectData[pageSize](_ => BLANK);
      count, next := 0, null;
      this.base := base;
    }
  }

  /** What malloc has given out and free has not taken back. */
  class Arena {
    ghost var pages: set<Page>
    ghost var arrays: set<array?<nat>>

    constructor ()
      ensures pages == {} && arrays == {}
    {
      pages, arrays := {}, {};
    }

    method NewPage(pageSize: nat, ghost base: nat) returns (p: Page)
      modifies this`pages
      ensures fresh(p) && fresh(p.data) && pages == old(pages) + {p}
      ensures p.data.Length == pageSize && p.count == 0 && p.next == null && p.base == base
    {
      p := new Page(pageSize, base);
      pages := pages + {p};
    }

    method FreePage(p: Page)
      requires p in pages
      modifies this`pages
      ensures pages == old(pages) - {p}
    {
      pages := pages - {p};
    }

    /** Reads a slot of a page that must not have been freed. */
    method Slot(p: Page, i: nat) returns (d: ObjectData)
      requires p in pages && i < p.data.Length
      ensures d == p.data[i]
    {
      d := p.data[i];
    }

    method Next(p: Page) returns (q: Page?)
      requires p in pages
      ensures q == p.next
    {
      q := p.next;
    }

    method NewArray() returns (a: array<nat>)
      modifies this`arrays
      ensures fresh(a) && a.Length == 1 && arrays == old(arrays) + {a}
    {
      a := new nat[1];
      arrays := arrays + {a};
    }

    /** realloc: the old block is given back, its contents are kept. */
    method Enlarge(a: array<nat>, length: nat) returns (b: array<nat>)
      requires a in arrays && a.Length <= length
      modifies this`arrays
      ensures fresh(b) && b.Length == length && b[..a.Length] == a[..]
      ensures arrays == old(arrays) - {a} + {b}
    {
      b := new nat[length];
      forall i | 0 <= i < a.Length {
        b[i] := a[i];
      }
      arrays := arrays - {a} + {b};
    }

    method FreeArray(a: array<nat>)
      requires a in arrays
      modifies this`arrays
      ensures arrays == old(arrays) - {a}
    {
      arrays := arrays - {a};
    }

    method Element(a: array<nat>, i: nat) returns (n: nat)
      requires a in arrays && i < a.Length
      ensures n == a[i]
    {
      n := a[i];
    }
  }

  // ----- what the heap walk reports

  datatype Reachable = Reachable(ownClass: bool, objectId: nat)

  /** A heap slot; `dumpable` is the filter of heap_obj_i. */
  datatype HeapObject = HeapObject(
    address: Obj, dumpable: bool, objectId: nat, className: Text, reachable: seq<Reachable>, memsize: nat)

  function ReferenceIds(rs: seq<Reachable>): seq<nat> {
    if rs == [] then []
    else
      var last := rs[|rs| - 1];
      ReferenceIds(rs[..|rs| - 1]) + (if last.ownClass then [] else [last.objectId])
  }

  function RecordOf(o: HeapObject, table: map<Obj, Allocation>): Record {
    var known := o.address in table;
    Record(o.objectId, o.className, ReferenceIds(o.reachable),
           if known then table[o.address].path else None, if known then table[o.address].line else 0, o.memsize)
  }

  /** The records of a heap walk, in walk order. */
  function RecordsOf(heap: seq<HeapObject>, table: map<Obj, Allocation>): seq<Record> {
    if heap == [] then []
    else
      var last := heap[|heap| - 1];
      RecordsOf(heap[..|heap| - 1], table) + (if last.dumpable then [RecordOf(last, table)] else [])
  }

  predicate Foreign(r: Reachable) {
    !r.ownClass
  }

  predicate Passes(o: HeapObject) {
    o.dumpable
  }

  /** The ids of the reachable objects that are not the object's own class, in walk order. */
  ghost predicate ListsReferences(ids: seq<nat>, rs: seq<Reachable>) {
    exists at :: ReferencesAt(at, ids, rs)
  }

  ghost predicate ReferencesAt(at: seq<nat>, ids: seq<nat>, rs: seq<Reachable>) {
    && Increasing(at) && (forall i: nat {:trigger Among(i, at)} :: Among(i, at) <==> i < |rs| && !rs[i].ownClass)
    && |ids| == |at| && forall k | 0 <= k < |at| :: at[k] < |rs| && ids[k] == rs[at[k]].objectId
  }

  ghost predicate ListsAt(at: seq<nat>, ids: seq<nat>, rs: seq<Reachable>) {
    Picks(at, Foreign, rs) && |ids| == |at| && forall k | 0 <= k < |at| :: ids[k] == rs[at[k]].objectId
  }

  lemma ListsReferencesAt(at: seq<nat>, ids: seq<nat>, rs: seq<Reachable>)
    requires ListsAt(at, ids, rs)
    ensures ReferencesAt(at, ids, rs)
  {
    PicksExactly(at, Foreign, rs);
  }

  /** A record shows an object: its own data, its references, and where the table says it was allocated. */
  ghost predicate Shows(r: Record, o: HeapObject, table: map<Obj, Allocation>) {
    && r.objectId == o.objectId && r.className == o.className && r.size == o.memsize
    && ListsReferences(r.references, o.reachable)
    && (if o.address in table then r.file == table[o.address].path && r.line == table[o.address].line
        else r.file == None && r.line == 0)
  }

  ghost function ShowsBy(table: map<Obj, Allocation>): (Record, HeapObject) -> bool {
    (r, o) => Shows(r, o, table)
  }

  /** The records show exactly the objects that pass the filter, each once, in heap order. */
  ghost predicate ShowsHeap(records: seq<Record>, heap: seq<HeapObject>, table: map<Obj, Allocation>) {
    exists at :: RecordsAt(at, records, heap, table)
  }

  ghost predicate RecordsAt(at: seq<nat>, records: seq<Record>, heap: seq<HeapObject>, table: map<Obj, Allocation>) {
    && Increasing(at) && (forall i: nat {:trigger Among(i, at)} :: Among(i, at) <==> i < |heap| && heap[i].dumpable)
    && |records| == |at| && forall k | 0 <= k < |at| :: at[k] < |heap| && Shows(records[k], heap[at[k]], table)
  }

  lemma ListsTake(at: seq<nat>, ids: seq<nat>, rs: seq<Reachable>, r: Reachable)
    requires ListsAt(at, ids, rs) && !r.ownClass
    ensures ListsAt(at + [|rs|], ids + [r.objectId], rs + [r])
  {
    PicksTake(at, Foreign, rs, r);
  }

  lemma ListsSkip(at: seq<nat>, ids: seq<nat>, rs: seq<Reachable>, r: Reachable)
    requires ListsAt(at, ids, rs) && r.ownClass
    ensures ListsAt(at, ids, rs + [r])
  {
    PicksSkip(at, Foreign, rs, r);
  }

  lemma {:induction false} ReferencesListed(rs: seq<Reachable>) returns (at: seq<nat>)
    ensures ListsAt(at, ReferenceIds(rs), rs)
  {
    if rs == [] {
      at := [];
    } else {
      var front, last := rs[..|rs| - 1], rs[|rs| - 1];
      at := ReferencesListed(front);
      assert rs == front + [last] && ReferenceIds(front) + [] == ReferenceIds(front);
      if last.ownClass {
        ListsSkip(at, ReferenceIds(front), front, last);
      } else {
        ListsTake(at, ReferenceIds(front), front, last);
        at := at + [|front|];
      }
    }
  }

  lemma RecordShows(o: HeapObject, table: map<Obj, Allocation>)
    ensures Shows(RecordOf(o, table), o, table)
  {
    var at := ReferencesListed(o.reachable);
    ListsReferencesAt(at, ReferenceIds(o.reachable), o.reachable);
  }

  lemma {:induction false} RecordsShown(heap: seq<HeapObject>, table: map<Obj, Allocation>) returns (at: seq<nat>)
    ensures Selects(at, RecordsOf(heap, table), Passes, ShowsBy(table), heap)
  {
    if heap == [] {
      at := [];
    } else {
      var front, last := heap[..|heap| - 1], heap[|heap| - 1];
      at := RecordsShown(front, table);
      assert heap == front + [last] && RecordsOf(front, table) + [] == RecordsOf(front, table);
      if Passes(last) {
        RecordShows(last, table);
        SelectsTake(at, RecordsOf(front, table), Passes, ShowsBy(table), front, last, RecordOf(last, table));
        at := at + [|front|];
      } else {
        SelectsSkip(at, RecordsOf(front, table), Passes, ShowsBy(table), front, last);
      }
    }
  }

  /** A heap walk records what is in the heap. */
  lemma HeapShown(heap: seq<HeapObject>, table: map<Obj, Allocation>)
    ensures ShowsHeap(RecordsOf(heap, table), heap, table)
  {
    var at := RecordsShown(heap, table);
    var records := RecordsOf(heap, table);
    PicksExactly(at, Passes, heap);
    forall k | 0 <= k < |at| ensures Shows(records[k], heap[at[k]], table) {
      assert ShowsBy(table)(records[k], heap[at[k]]);
    }
    assert RecordsAt(at, records, heap, table);
  }

  /** A slot describes a record. */
  ghost predicate Describes(d: ObjectData, r: Record)
    reads d.references
  {
    && d.objectId == r.objectId && d.className == r.className
    && Content(d.file) == r.file && d.line == r.line && d.size == r.size
    && d.referenceCount == |r.references|
    && (if d.references == null then r.references == []
        else d.references[..] == r.references && r.references != [])
  }

  ghost predicate AllDescribe(slots: seq<ObjectData>, records: seq<Record>)
    reads set d | d in slots :: d.references
  {
    && |slots| == |records|
    && forall g {:trigger Describes(slots[g], records[g])} | 0 <= g < |slots| :: Describes(slots[g], records[g])
  }

  lemma DescribeSnoc(slots: seq<ObjectData>, records: seq<Record>, d: ObjectData, r: Record)
    requires AllDescribe(slots, records) && Describes(d, r)
    ensures AllDescribe(slots + [d], records + [r])
  {
  }

  /** The occupied slots of a page. */
  ghost predicate PageHolds(p: Page, slots: seq<ObjectData>)
    reads p`count, p.data
  {
    && p.count <= p.data.Length && p.base + p.count <= |slots|
    && forall k | 0 <= k < p.count :: p.data[k] == slots[p.base + k]
  }

  /** The arrays of the slots from position i on. */
  function Arrays(slots: seq<ObjectData>, i: nat): set<array?<nat>>
    requires i <= |slots|
  {
    set d | d in slots[i..] && d.references != null :: d.references
  }

  /** No two slots share an array. */
  ghost predicate Unshared(slots: seq<ObjectData>) {
    forall g, h | 0 <= g < h < |slots| && slots[g].references != null :: slots[g].references != slots[h].references
  }

  /** No slot names a file by a pointer to another string. */
  ghost predicate FilesIn(slots: seq<ObjectData>, strings: set<CString>) {
    forall g | 0 <= g < |slots| :: slots[g].file == null || slots[g].file in strings
  }

  /** Pages of one size, all different, each starting where the one before ends. */
  ghost predicate Layout(pages: seq<Page>, pageSize: nat) {
    && (forall i | 0 <= i < |pages| :: pages[i].data.Length == pageSize)
    && (pages != [] ==> pages[0].base == 0)
    && (forall i {:trigger Follows(pages, i, pageSize)} | 0 < i < |pages| :: Follows(pages, i, pageSize))
    && (forall i, j {:trigger Apart(pages[i], pages[j], pageSize)} | 0 <= i < j < |pages| ::
          Apart(pages[i], pages[j], pageSize))
  }

  ghost predicate Follows(pages: seq<Page>, i: nat, pageSize: nat)
    requires 0 < i < |pages|
  {
    pages[i].base == pages[i - 1].base + pageSize
  }

  ghost predicate Apart(p: Page, q: Page, pageSize: nat) {
    p != q && p.data != q.data && p.base + pageSize <= q.base
  }

  lemma LayoutSnoc(pages: seq<Page>, pageSize: nat, p: Page)
    requires Layout(pages, pageSize) && p.data.Length == pageSize
    requires p.base == if pages == [] then 0 else pages[|pages| - 1].base + pageSize
    requires forall q | q in pages :: q != p && q.data != p.data
    ensures Layout(pages + [p], pageSize)
  {
    var all := pages + [p];
    forall i, j | 0 <= i < j < |all| ensures Apart(all[i], all[j], pageSize) {
      if j < |pages| {
        assert Apart(pages[i], pages[j], pageSize);
      } else if i < |pages| - 1 {
        assert Apart(pages[i], pages[|pages| - 1], pageSize);
      }
    }
    forall i | 0 < i < |all| ensures Follows(all, i, pageSize) {
      if i < |pages| {
        assert Follows(pages, i, pageSize);
      }
    }
  }

  /** The last page differs from all the others. */
  lemma LastApart(pages: seq<Page>, pageSize: nat)
    requires Layout(pages, pageSize) && pages != []
    ensures forall i | 0 <= i < |pages| - 1 ::
              pages[i] != pages[|pages| - 1] && pages[i].data != pages[|pages| - 1].data
  {
    forall i | 0 <= i < |pages| - 1 ensures Apart(pages[i], pages[|pages| - 1], pageSize) {
    }
  }

  /** Page i is full and linked to the next one. */
  ghost predicate Linked(pages: seq<Page>, i: nat, pageSize: nat)
    requires i + 1 < |pages|
    reads pages[i]
  {
    pages[i].next == pages[i + 1] && pages[i].count == pageSize
  }

  class ObjectDump {
    const pageSize: nat
    const arena: Arena
    var pageCount: nat
    var objectCount: nat   // meaningful once there is a page
    var first: Page?
    var last: Page?

    ghost var pages: seq<Page>
    ghost var slots: seq<ObjectData>  // all occupied slots, page by page
    ghost var records: seq<Record>    // what they describe
    ghost var strings: set<CString>   // the file names are among these

    /** All pages but the last are full and linked to the next one. */
    ghost predicate Chain()
      reads this`pageCount, this`objectCount, this`first, this`last, this`pages, this`slots
      reads pages
    {
      && pageSize > 0 && Layout(pages, pageSize)
      && (if pages == [] then first == null && slots == [] else
            && first == pages[0] && last == pages[|pages| - 1]
            && last.next == null && last.count <= pageSize
            && pageCount == |pages| && objectCount == |slots| == last.base + last.count)
      && (forall i: nat {:trigger Linked(pages, i, pageSize)} | i + 1 < |pages| :: Linked(pages, i, pageSize))
    }

    ghost predicate Filled()
      reads this`pages, this`slots, this`strings, pages, set p | p in pages :: p.data
    {
      && FilesIn(slots, strings)
      && forall i {:trigger PageHolds(pages[i], slots)} | 0 <= i < |pages| :: PageHolds(pages[i], slots)
    }

    ghost predicate Described()
      reads this`slots, this`records, set d | d in slots :: d.references
    {
      AllDescribe(slots, records)
    }

    /** The arena's live blocks are exactly this dump's. */
    ghost predicate Owns()
      reads this`pages, this`slots, arena
    {
      arena.pages == From(pages, 0) && arena.arrays == Arrays(slots, 0) && Unshared(slots)
    }

    ghost predicate Valid()
      reads this, arena, pages, set p | p in pages :: p.data, set d | d in slots :: d.references
    {
      Chain() && Filled() && Described() && Owns()
    }

    /** An empty dump; the object count is not set yet. */
    constructor (pageSize: nat, arena: Arena, ghost strings: set<CString>)
      requires pageSize > 0 && arena.pages == {} && arena.arrays == {}
      ensures Valid() && records == [] && pages == []
      ensures this.pageSize == pageSize && this.arena == arena && this.strings == strings
    {
      this.pageSize, this.arena := pageSize, arena;
      pageCount, objectCount := *, *;
      first, last := null, null;
      this.strings := strings;
      pages, slots, records := [], [], [];
    }

    method FirstPage()
      requires Valid() && first == null
      modifies this`pages, this`pageCount, this`objectCount, this`first, this`last, arena
      ensures Valid() && pages == [last] && fresh(last) && fresh(last.data) && last.count < pageSize
    {
      var page := arena.NewPage(pageSize, 0);
      first := page;
      last := page;
      pageCount := 1;
      objectCount := 0;
      pages := [page];
    }

    /** Links a new page behind a full last one. */
    method Append(page: Page)
      requires Chain() && Filled() && first != null && last.count == pageSize
      requires page.data.Length == pageSize && page.count == 0 && page.next == null
      requires page.base == last.base + pageSize
      requires forall q | q in pages :: q != page && q.data != page.data
      modifies this`pages, this`pageCount, this`last, last`next
      ensures Chain() && Filled() && pages == old(pages) + [page] && last == page
    {
      LayoutSnoc(pages, pageSize, page);
      LastApart(pages, pageSize);
      ghost var n := |pages|;
      last.next := page;
      last := page;
      pageCount := pageCount + 1;
      pages := pages + [page];
      forall i: nat | i + 1 < |pages| ensures Linked(pages, i, pageSize) {
        assert i + 1 < n ==> old(Linked(pages, i, pageSize));
      }
      forall i | 0 <= i < |pages| ensures PageHolds(pages[i], slots) {
        assert i < n ==> old(PageHolds(pages[i], slots));
      }
    }

    method NextPage()
      requires Valid() && first != null && last.count == pageSize
      modifies this`pages, this`pageCount, this`last, arena, last`next
      ensures Valid() && pages == old(pages) + [last] && fresh(last) && fresh(last.data) && last.count < pageSize
    {
      var page := arena.NewPage(pageSize, last.base + pageSize);
      FromSnoc(pages, page);
      Append(page);
    }

    /** Room for one more record: a page at the start and after every full page. */
    method EnsureRoom()
      requires Valid()
      modifies this`pages, this`pageCount, this`objectCount, this`first, this`last, arena, pages
      ensures Valid() && pages != [] && last.count < pageSize
      ensures forall p | p in pages :: p in old(pages) || (fresh(p) && fresh(p.data))
    {
      if first == null {
        FirstPage();
      } else if last.count == pageSize {
        NextPage();
      }
    }

    /** Appends one reference to a slot, unless the referenced object is its own class. */
    method ReachableObject(page: Page, i: nat, ref: Reachable)
      requires i < page.data.Length && RefsOk(page.data[i], arena) && null !in arena.arrays
      modifies page.data, arena`arrays
      ensures forall k | 0 <= k < page.data.Length && k != i :: page.data[k] == old(page.data[k])
      ensures RefsOk(page.data[i], arena)
      ensures page.data[i] == old(page.data[i]).(references := page.data[i].references,
                                                 referenceCount := page.data[i].referenceCount)
      ensures RefsOf(page.data[i]) == old(RefsOf(page.data[i])) + (if ref.ownClass then [] else [ref.objectId])
      ensures page.data[i].references == old(page.data[i].references) || fresh(page.data[i].references)
      ensures arena.arrays == old(arena.arrays) - old({page.data[i].references}) + {page.data[i].references} - {null}
    {
      if ref.ownClass {
        return;
      }
      var d := page.data[i];
      var n := d.referenceCount + 1;
      var a;
      if n == 1 {
        a := arena.NewArray();
      } else {
        a := arena.Enlarge(d.references, n);
      }
      a[n - 1] := ref.objectId;
      page.data[i] := d.(references := a, referenceCount := n);
    }

    /** Collects the references of one object into a slot that has none yet. */
    method WalkReferences(page: Page, i: nat, reachable: seq<Reachable>)
      requires i < page.data.Length && null !in arena.arrays
      requires page.data[i].references == null && page.data[i].referenceCount == 0
      modifies page.data, arena`arrays
      ensures forall k | 0 <= k < page.data.Length && k != i :: page.data[k] == old(page.data[k])
      ensures var d := page.data[i];
              && d == old(page.data[i]).(references := d.references, referenceCount := d.referenceCount)
              && RefsOk(d, arena) && RefsOf(d) == ReferenceIds(reachable)
              && (d.references == null || fresh(d.references))
              && arena.arrays == old(arena.arrays) + {d.references} - {null}
    {
      for j := 0 to |reachable|
        invariant forall k | 0 <= k < page.data.Length && k != i :: page.data[k] == old(page.data[k])
        invariant page.data[i] == old(page.data[i]).(references := page.data[i].references,
                                                     referenceCount := page.data[i].referenceCount)
        invariant RefsOk(page.data[i], arena) && RefsOf(page.data[i]) == ReferenceIds(reachable[..j])
        invariant page.data[i].references == null || fresh(page.data[i].references)
        invariant arena.arrays == old(arena.arrays) + {page.data[i].references} - {null}
      {
        assert reachable[..j + 1][..j] == reachable[..j];
        ReachableObject(page, i, reachable[j]);
      }
      assert reachable[..|reachable|] == reachable;
    }

    /** Fills a slot with what is known about one heap object. */
    method FillSlot(page: Page, i: nat, o: HeapObject, tables: Tables)
      requires i < page.data.Length && null !in arena.arrays && tables.Valid()
      modifies page.data, arena`arrays
      ensures forall k | 0 <= k < page.data.Length && k != i :: page.data[k] == old(page.data[k])
      ensures var d := page.data[i];
              && Describes(d, RecordOf(o, tables.Contents()))
              && (d.file == null || d.file in tables.strings)
              && (d.references == null || fresh(d.references))
              && arena.arrays == old(arena.arrays) + {d.references} - {null}
    {
      page.data[i] := BLANK.(objectId := o.objectId, className := o.className);
      WalkReferences(page, i, o.reachable);
      LookupIsCopy(tables, o.address);
      if o.address in tables.objectTable {
        var info := tables.objectTable[o.address];
        page.data[i] := page.data[i].(file := info.path, line := info.line);
      }
      if o.memsize > 0 {
        page.data[i] := page.data[i].(size := o.memsize);
      }
    }

    /** The slot behind the occupied ones joins them. */
    method Occupy()
      requires Chain() && Filled()
      requires pages != [] && last.count < pageSize
      requires last.data[last.count].file == null || last.data[last.count].file in strings
      modifies this`objectCount, this`slots, last`count
      ensures Chain() && Filled() && last.count == old(last.count) + 1
      ensures slots == old(slots) + [old(last.data[last.count])]
    {
      ghost var d := last.data[last.count];
      LastApart(pages, pageSize);
      objectCount := objectCount + 1;
      last.count := last.count + 1;
      slots := slots + [d];
      forall i: nat | i + 1 < |pages| ensures Linked(pages, i, pageSize) {
        assert old(Linked(pages, i, pageSize));
      }
      forall i | 0 <= i < |pages| ensures PageHolds(pages[i], slots) {
        assert old(PageHolds(pages[i], slots));
      }
    }

    /** Fills the slot behind the occupied ones. */
    method FillNext(o: HeapObject, tables: Tables)
      requires Valid() && tables.Valid() && strings == tables.strings
      requires pages != [] && last.count < pageSize
      modifies last.data, arena`arrays
      ensures Chain() && Filled() && Described()
      ensures NextIs(RecordOf(o, tables.Contents()))
    {
      LastApart(pages, pageSize);
      FillSlot(last, last.count, o, tables);
      forall i: nat | i + 1 < |pages| ensures Linked(pages, i, pageSize) {
        assert old(Linked(pages, i, pageSize));
      }
      forall i | 0 <= i < |pages| ensures PageHolds(pages[i], slots) {
        assert old(PageHolds(pages[i], slots));
      }
    }

    /** The slot behind the occupied ones describes a record, with an array of its own. */
    ghost predicate NextIs(r: Record)
      reads this, arena, last, if last == null then {} else {last.data},
            if last == null || last.count >= last.data.Length then {} else {last.data[last.count].references}
    {
      && last != null && last.count < last.data.Length
      && var d := last.data[last.count];
      && Describes(d, r) && (d.file == null || d.file in strings)
      && Unshared(slots) && d.references !in Arrays(slots, 0)
      && arena.pages == From(pages, 0) && arena.arrays == Arrays(slots, 0) + {d.references} - {null}
    }

    /** That slot becomes part of the dump. */
    method CountSlot(ghost r: Record)
      requires Chain() && Filled() && Described()
      requires pages != [] && last.count < pageSize && NextIs(r)
      modifies this`objectCount, this`slots, this`records, last`count
      ensures Valid() && last.count > 0
      ensures records == old(records) + [r]
    {
      ghost var slots0, d := slots, last.data[last.count];
      Occupy();
      UnsharedSnoc(slots0, d);
      DescribeSnoc(slots0, records, d, r);
      records := records + [r];
    }

    /** Records one heap object, with file and line if its allocation was traced. */
    method DumpHeapObject(o: HeapObject, tables: Tables)
      requires Valid() && tables.Valid() && strings == tables.strings
      modifies this, arena, pages, set p | p in pages :: p.data
      ensures Complete() && strings == tables.strings
      ensures records == old(records) + [RecordOf(o, tables.Contents())]
      ensures forall p | p in pages :: p in old(pages) || (fresh(p) && fresh(p.data))
    {
      EnsureRoom();
      FillNext(o, tables);
      CountSlot(RecordOf(o, tables.Contents()));
    }

    /** The dump has records, and no page is empty. */
    ghost predicate Complete()
      reads this, arena, pages, set p | p in pages :: p.data, set d | d in slots :: d.references
    {
      Valid() && pages != [] && last.count > 0
    }

    /** Walks the heap and records every object that passes the filter. */
    method CollectHeapObjects(heap: seq<HeapObject>, tables: Tables)
      requires Valid() && records == [] && pages == [] && tables.Valid() && strings == tables.strings
      modifies this, arena
      ensures Valid() && strings == old(strings) && records == RecordsOf(heap, tables.Contents())
      ensures ShowsHeap(records, heap, tables.Contents())
      ensures records != [] ==> Complete()
      ensures forall p | p in pages :: fresh(p) && fresh(p.data)
    {
      for i := 0 to |heap|
        invariant Valid() && strings == tables.strings && records == RecordsOf(heap[..i], tables.Contents())
        invariant records != [] ==> Complete()
        invariant forall p | p in pages :: fresh(p) && fresh(p.data)
      {
        assert heap[..i + 1][..i] == heap[..i];
        if heap[i].dumpable {
          DumpHeapObject(heap[i], tables);
        }
      }
      assert heap[..|heap|] == heap;
      HeapShown(heap, tables.Contents());
    }
  }

  /** A dump of the whole heap, in fresh memory. */
  method GetObjectDump(heap: seq<HeapObject>, tables: Tables, pageSize: nat, arena: Arena) returns (dump: ObjectDump)
    requires tables.Valid() && pageSize > 0 && arena.pages == {} && arena.arrays == {}
    modifies arena
    ensures dump.Valid() && fresh(dump) && dump.arena == arena && dump.pageSize == pageSize
    ensures dump.records == RecordsOf(heap, tables.Contents()) && dump.strings == tables.strings
    ensures ShowsHeap(dump.records, heap, tables.Contents())
    ensures dump.records != [] ==> dump.Complete()
  {
    dump := new ObjectDump(pageSize, arena, tables.strings);
    dump.CollectHeapObjects(heap, tables);
    HeapShown(heap, tables.Contents());
  }

  lemma UnsharedSnoc(slots: seq<ObjectData>, d: ObjectData)
    requires Unshared(slots) && d.references !in Arrays(slots, 0)
    ensures Unshared(slots + [d])
    ensures Arrays(slots + [d], 0) == Arrays(slots, 0) + {d.references} - {null}
  {
    assert slots[0..] == slots && (slots + [d])[0..] == slots + [d];
    forall g | 0 <= g < |slots| && slots[g].references != null ensures slots[g].references != d.references {
      assert slots[g] in slots;
    }
    assert d in slots + [d];
    forall x | x in slots ensures x in slots + [d] {
    }
  }

  /** A slot whose references array is live and as long as the count says. */
  ghost predicate RefsOk(d: ObjectData, arena: Arena)
    reads arena
  {
    if d.references == null then d.referenceCount == 0
    else d.references in arena.arrays && d.references.Length == d.referenceCount > 0
  }

  ghost function RefsOf(d: ObjectData): seq<nat>
    reads d.references
  {
    if d.references == null then [] else d.references[..]
  }
}
