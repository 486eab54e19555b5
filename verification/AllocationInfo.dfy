/**
 The object table of the tracer and the reference-counted strings under it.
 Interned strings and allocation infos are heap objects that the C program
 frees by hand; ghost sets say which of them are allocated.
 */
module AllocationInfo {
  import opened Wrappers
  import opened MessagePack
  import opened Messages

  /** A malloc'ed copy of a string. */
  class CString {
    const chars: bytes

    constructor (chars: bytes)
      ensures this.chars == chars
    {
      this.chars := chars;
    }
  }

  /** The address of a Ruby object. */
  type Obj = nat

  class Info {
    var path: CString?
    var line: nat
    var classPath: CString?
    var methodId: nat
    var generation: nat

    constructor ()
    {
      path, line, classPath, methodId, generation := null, 0, null, 0, 0;
    }
  }

  datatype Interned = Interned(key: CString, count: nat)

  /** The class a method was defined in, as the tracepoint reports it. */
  datatype DefinedClass = NoClass | FrozenClass | OpenClass(cachedPath: Text)

  /** An allocation info by value: what a map without sharing would store. */
  datatype Allocation = Allocation(path: Text, line: nat, classPath: Text, methodId: nat, generation: nat)

  function ClassPathOf(k: DefinedClass): Text {
    if k.OpenClass? then k.cachedPath else None
  }

  function Content(c: CString?): Text {
    if c == null then None else Some(c.chars)
  }

  // ----- counting pointers

  /** The two string pointers of an info. */
  datatype Pointers = Pointers(path: CString?, classPath: CString?)

  /** The fields of an info. */
  datatype Row = Row(path: CString?, line: nat, classPath: CString?, methodId: nat, generation: nat) {
    function Pair(): Pointers {
      Pointers(path, classPath)
    }

    /** The record with its strings copied. */
    function Copy(): Allocation {
      Allocation(Content(path), line, Content(classPath), methodId, generation)
    }
  }

  function PathHolders(m: map<Obj, Row>, c: CString): set<Obj> {
    set o | o in m && m[o].path == c
  }

  function ClassHolders(m: map<Obj, Row>, c: CString): set<Obj> {
    set o | o in m && m[o].classPath == c
  }

  /** How many path and class_path fields point to a string. */
  function FieldCount(m: map<Obj, Row>, c: CString): nat {
    |PathHolders(m, c)| + |ClassHolders(m, c)|
  }

  /** How often a pair of pointers mentions a string. */
  function Mentions(p: Pointers, c: CString): nat {
    (if p.path == c then 1 else 0) + (if p.classPath == c then 1 else 0)
  }

  lemma CountWithout(m: map<Obj, Row>, o: Obj, c: CString)
    requires o in m
    ensures FieldCount(m, c) == FieldCount(m - {o}, c) + Mentions(m[o].Pair(), c)
  {
    var p, k := PathHolders(m - {o}, c), ClassHolders(m - {o}, c);
    assert PathHolders(m, c) == if m[o].path == c then p + {o} else p;
    assert ClassHolders(m, c) == if m[o].classPath == c then k + {o} else k;
  }

  lemma CountWith(m: map<Obj, Row>, o: Obj, r: Row, c: CString)
    ensures FieldCount(m[o := r], c) == FieldCount(m - {o}, c) + Mentions(r.Pair(), c)
  {
    CountWithout(m[o := r], o, c);
    assert m[o := r] - {o} == m - {o};
  }

  /** How many pointers to each string are held, in fields and local variables. */
  type Counts = map<CString, nat>

  function Count(h: Counts, c: CString): nat {
    if c in h then h[c] else 0
  }

  function Take(h: Counts, c: CString?): Counts {
    if c == null then h else h[c := Count(h, c) + 1]
  }

  function Give(h: Counts, c: CString?): Counts {
    if c == null || Count(h, c) == 0 then h else h[c := Count(h, c) - 1]
  }

  function TakeBoth(h: Counts, p: Pointers): Counts {
    Take(Take(h, p.path), p.classPath)
  }

  function GiveBoth(h: Counts, p: Pointers): Counts {
    Give(Give(h, p.path), p.classPath)
  }

  /** Both pointers can be given up. */
  predicate Covers(h: Counts, p: Pointers) {
    && (p.path != null ==> Count(h, p.path) >= Mentions(p, p.path))
    && (p.classPath != null ==> Count(h, p.classPath) >= Mentions(p, p.classPath))
  }

  predicate PointsInto(p: Pointers, strings: set<CString>) {
    (p.path == null || p.path in strings) && (p.classPath == null || p.classPath in strings)
  }

  ghost predicate HeldAllocated(strings: set<CString>, held: Counts) {
    forall c {:trigger held[c]} | c in held && held[c] > 0 :: c in strings
  }

  /** The pointers held are exactly the fields of the table, and none dangles. */
  ghost predicate Exact(m: map<Obj, Row>, strings: set<CString>, held: Counts) {
    && (forall c {:trigger FieldCount(m, c)} | c in strings :: Count(held, c) == FieldCount(m, c))
    && HeldAllocated(strings, held)
    && (forall o {:trigger PointsInto(m[o].Pair(), strings)} | o in m :: PointsInto(m[o].Pair(), strings))
  }

  /** The same for every string, allocated or not. */
  lemma ExactCount(m: map<Obj, Row>, strings: set<CString>, held: Counts, c: CString)
    requires Exact(m, strings, held)
    ensures Count(held, c) == FieldCount(m, c)
  {
    if c !in strings {
      forall o | o in m ensures m[o].path != c && m[o].classPath != c {
        assert PointsInto(m[o].Pair(), strings);
      }
      assert PathHolders(m, c) == {} && ClassHolders(m, c) == {};
    }
  }

  lemma ExactCovers(m: map<Obj, Row>, strings: set<CString>, held: Counts, o: Obj)
    requires Exact(m, strings, held) && o in m
    ensures Covers(held, m[o].Pair())
  {
    if m[o].path != null {
      ExactCount(m, strings, held, m[o].path);
      CountWithout(m, o, m[o].path);
    }
    if m[o].classPath != null {
      ExactCount(m, strings, held, m[o].classPath);
      CountWithout(m, o, m[o].classPath);
    }
  }

  /** An entry is gone once both of its pointers are given up. */
  lemma ExactRemove(m: map<Obj, Row>, strings: set<CString>, held: Counts, o: Obj,
                    m': map<Obj, Row>, strings': set<CString>, held': Counts)
    requires Exact(m, strings, held) && o in m && m' == m - {o}
    requires held' == GiveBoth(held, m[o].Pair()) && HeldAllocated(strings', held')
    ensures Exact(m', strings', held')
  {
    ExactCovers(m, strings, held, o);
    forall c: CString ensures Count(held', c) == FieldCount(m', c) {
      ExactCount(m, strings, held, c);
      CountWithout(m, o, c);
      GiveBothCount(held, m[o].Pair(), c);
    }
    PointedAt(m', strings', held');
  }

  lemma TakeBothCount(h: Counts, p: Pointers, c: CString)
    ensures Count(TakeBoth(h, p), c) == Count(h, c) + Mentions(p, c)
  {
  }

  lemma GiveBothCount(h: Counts, p: Pointers, c: CString)
    requires Covers(h, p)
    ensures Count(GiveBoth(h, p), c) == Count(h, c) - Mentions(p, c)
  {
  }

  lemma TakeKeepsCovers(h: Counts, p: Pointers, q: Pointers)
    requires Covers(h, q)
    ensures Covers(TakeBoth(h, p), q)
  {
    if q.path != null { TakeBothCount(h, p, q.path); }
    if q.classPath != null { TakeBothCount(h, p, q.classPath); }
  }

  /** What the counts become when an entry is filled in: new pointers are taken before old ones are given up. */
  function Exchanged(m: map<Obj, Row>, held: Counts, o: Obj, p: Pointers): Counts {
    if o in m then GiveBoth(TakeBoth(held, p), m[o].Pair()) else TakeBoth(held, p)
  }

  lemma ExactReplace(m: map<Obj, Row>, strings: set<CString>, held: Counts, o: Obj, r: Row,
                     m': map<Obj, Row>, strings': set<CString>, held': Counts)
    requires Exact(m, strings, held) && m' == m[o := r]
    requires held' == Exchanged(m, held, o, r.Pair()) && HeldAllocated(strings', held')
    ensures Exact(m', strings', held')
  {
    var p := r.Pair();
    if o in m {
      ExactCovers(m, strings, held, o);
      TakeKeepsCovers(held, p, m[o].Pair());
    }
    forall c: CString ensures Count(held', c) == FieldCount(m', c) {
      ExactCount(m, strings, held, c);
      CountWith(m, o, r, c);
      TakeBothCount(held, p, c);
      if o in m {
        CountWithout(m, o, c);
        GiveBothCount(TakeBoth(held, p), m[o].Pair(), c);
      } else {
        assert m - {o} == m;
      }
    }
    PointedAt(m', strings', held');
  }

  lemma PointedAt(m: map<Obj, Row>, strings: set<CString>, held: Counts)
    requires forall c: CString :: Count(held, c) == FieldCount(m, c)
    requires HeldAllocated(strings, held)
    ensures Exact(m, strings, held)
  {
    forall o | o in m ensures PointsInto(m[o].Pair(), strings) {
      var p := m[o];
      assert p.path != null ==> o in PathHolders(m, p.path) && Count(held, p.path) > 0;
      assert p.classPath != null ==> o in ClassHolders(m, p.classPath) && Count(held, p.classPath) > 0;
    }
  }

  // ----- the string table

  /** Equal strings share one pointer; a count is the number of pointers held. */
  ghost predicate CountedIn(t: map<bytes, Interned>, strings: set<CString>, held: Counts) {
    && (forall s | s in t ::
          t[s].key in strings && t[s].key.chars == s && t[s].count == Count(held, t[s].key) >= 1)
    && (forall c | c in strings :: c.chars in t && t[c.chars].key == c)
    && HeldAllocated(strings, held)
  }

  lemma CountFirst(t: map<bytes, Interned>, strings: set<CString>, held: Counts, c: CString)
    requires CountedIn(t, strings, held) && c.chars !in t
    ensures CountedIn(t[c.chars := Interned(c, 1)], strings + {c}, Take(held, c))
  {
    assert c !in strings && Count(held, c) == 0;
  }

  lemma CountMore(t: map<bytes, Interned>, strings: set<CString>, held: Counts, c: CString)
    requires CountedIn(t, strings, held) && c in strings
    ensures CountedIn(t[c.chars := Interned(c, t[c.chars].count + 1)], strings, Take(held, c))
  {
  }

  lemma CountLess(t: map<bytes, Interned>, strings: set<CString>, held: Counts, c: CString)
    requires CountedIn(t, strings, held) && Count(held, c) > 0 && t[c.chars].count != 1
    ensures CountedIn(t[c.chars := Interned(c, t[c.chars].count - 1)], strings, Give(held, c))
  {
  }

  lemma CountLast(t: map<bytes, Interned>, strings: set<CString>, held: Counts, c: CString)
    requires CountedIn(t, strings, held) && Count(held, c) > 0 && t[c.chars].count == 1
    ensures CountedIn(t - {c.chars}, strings - {c}, Give(held, c))
  {
    forall d | d in strings && d != c ensures d.chars != c.chars {
    }
  }

  // ----- the object table

  ghost function RowOf(i: Info): Row
    reads i
  {
    Row(i.path, i.line, i.classPath, i.methodId, i.generation)
  }

  /** A map of copied records. */
  ghost predicate Copies(contents: map<Obj, Allocation>, rows: map<Obj, Row>) {
    && contents.Keys == rows.Keys
    && forall o {:trigger rows[o].Copy()} | o in rows :: contents[o] == rows[o].Copy()
  }

  lemma CopiesWith(contents: map<Obj, Allocation>, rows: map<Obj, Row>, o: Obj, r: Row)
    requires Copies(contents, rows)
    ensures Copies(contents[o := r.Copy()], rows[o := r])
  {
    var contents', rows' := contents[o := r.Copy()], rows[o := r];
    forall p | p in rows' ensures contents'[p] == rows'[p].Copy() {
      assert p != o ==> contents[p] == rows[p].Copy();
    }
  }

  lemma CopiesWithout(contents: map<Obj, Allocation>, rows: map<Obj, Row>, o: Obj)
    requires Copies(contents, rows)
    ensures Copies(contents - {o}, rows - {o})
  {
    var contents', rows' := contents - {o}, rows - {o};
    forall p | p in rows' ensures contents'[p] == rows'[p].Copy() {
      assert contents[p] == rows[p].Copy();
    }
  }

  /** The allocated infos are those in the table, and each has one owner. */
  ghost predicate OwnedIn(t: map<Obj, Info>, owner: map<Info, Obj>) {
    && (forall o | o in t :: t[o] in owner && owner[t[o]] == o)
    && (forall i | i in owner :: owner[i] in t && t[owner[i]] == i)
  }

  lemma OthersDiffer(t: map<Obj, Info>, owner: map<Info, Obj>, o: Obj, i: Info)
    requires OwnedIn(t[o := i], owner)
    ensures forall p | p in t && p != o :: t[p] != i
  {
    var u := t[o := i];
    assert u[o] == i && owner[u[o]] == o;
    forall p | p in t && p != o ensures t[p] != i {
      assert u[p] == t[p] && owner[u[p]] == p;
    }
  }

  class Tables {
    var strTable: map<bytes, Interned>
    var objectTable: map<Obj, Info>

    ghost var strings: set<CString>    // allocated strings
    ghost var owner: map<Info, Obj>    // allocated infos, with the object each belongs to
    ghost var rows: map<Obj, Row>            // the fields of every info in the table
    ghost var contents: map<Obj, Allocation> // the table as a plain map of copied records
    ghost var held: Counts             // pointers to strings in fields and local variables

    ghost predicate Counted()
      reads this`strTable, this`strings, this`held
    {
      CountedIn(strTable, strings, held)
    }

    /** The ghost rows are the fields of the infos. */
    ghost predicate Linked()
      reads this`objectTable, this`rows, objectTable.Values
    {
      && rows.Keys == objectTable.Keys
      && forall o {:trigger RowOf(objectTable[o])} | o in objectTable :: RowOf(objectTable[o]) == rows[o]
    }

    ghost predicate Owned()
      reads this`objectTable, this`owner
    {
      OwnedIn(objectTable, owner)
    }

    ghost predicate Valid()
      reads this, objectTable.Values
    {
      && Counted() && Owned() && Linked()
      && Exact(rows, strings, held) && Copies(contents, rows)
    }

    ghost function Contents(): map<Obj, Allocation>
      reads this`contents
    {
      contents
    }

    constructor ()
      ensures Valid() && Contents() == map[] && strings == {} && owner == map[]
    {
      strTable, objectTable := map[], map[];
      strings, owner, rows, contents, held := {}, map[], map[], map[], map[];
    }

    /** Returns the one allocated copy of a string and counts one more pointer to it. */
    method MakeUniqueStr(str: Text) returns (r: CString?)
      requires Counted()
      modifies this`strTable, this`strings, this`held
      ensures Counted() && held == Take(old(held), r) && old(strings) <= strings
      ensures Content(r) == str
      ensures r != null ==> r in strings && (r in old(strings) || fresh(r))
    {
      if str.None? {
        return null;
      }
      if str.value in strTable {
        CountMore(strTable, strings, held, strTable[str.value].key);
        var entry := strTable[str.value];
        strTable := strTable[str.value := Interned(entry.key, entry.count + 1)];
        r := entry.key;
      } else {
        r := new CString(str.value);
        CountFirst(strTable, strings, held, r);
        strTable := strTable[str.value := Interned(r, 1)];
        strings := strings + {r};
      }
      held := Take(held, r);
    }

    /** Gives up one pointer; the last one frees the string. */
    method DeleteUniqueStr(str: CString?)
      requires Counted() && (str != null ==> Count(held, str) > 0)
      modifies this`strTable, this`strings, this`held
      ensures Counted() && held == Give(old(held), str)
      ensures strings <= old(strings)
    {
      if str != null {
        var entry := strTable[str.chars];
        if entry.count == 1 {
          CountLast(strTable, strings, held, str);
          strTable := strTable - {str.chars};
          held := Give(held, str);
          FreeString(entry.key);
        } else {
          CountLess(strTable, strings, held, str);
          strTable := strTable[str.chars := Interned(entry.key, entry.count - 1)];
          held := Give(held, str);
        }
      }
    }

    /** Reads a string that must not have been freed. */
    method ReadString(c: CString?) returns (t: Text)
      requires c == null || c in strings
      ensures t == Content(c)
    {
      t := if c == null then None else Some(c.chars);
    }

    method FreeString(c: CString)
      requires c in strings
      modifies this`strings
      ensures strings == old(strings) - {c}
    {
      strings := strings - {c};
    }

    method FreeInfo(i: Info)
      requires i in owner
      modifies this`owner
      ensures owner == old(owner) - {i}
    {
      owner := owner - {i};
    }

    /** Gives up both pointers of an info, one after the other. */
    method Release(info: Info)
      requires Counted() && Covers(held, RowOf(info).Pair())
      modifies this`strTable, this`strings, this`held
      ensures Counted() && strings <= old(strings)
      ensures held == GiveBoth(old(held), RowOf(info).Pair())
    {
      DeleteUniqueStr(info.path);
      DeleteUniqueStr(info.classPath);
    }

    /** The info to fill for an object: its old one, emptied of its pointers, or a new one. */
    method InfoFor(obj: Obj) returns (info: Info)
      requires Counted() && Owned()
      requires obj in objectTable ==> Covers(held, RowOf(objectTable[obj]).Pair())
      modifies this`strTable, this`strings, this`held, this`owner
      ensures Counted()
      ensures obj in objectTable ==> info == objectTable[obj] && held == GiveBoth(old(held), RowOf(info).Pair())
      ensures obj !in objectTable ==> fresh(info) && held == old(held)
      ensures OwnedIn(objectTable[obj := info], owner)
    {
      if obj in objectTable {
        info := objectTable[obj];
        Release(info);
        assert objectTable[obj := info] == objectTable;
      } else {
        info := new Info();
        owner := owner[info := obj];
      }
    }

    /** Fills an info and enters it in the object table. */
    method Store(obj: Obj, info: Info, path: CString?, line: nat, classPath: CString?, methodId: nat, gcCount: nat)
      requires Linked() && OwnedIn(objectTable[obj := info], owner)
      modifies this`objectTable, this`rows, info
      ensures Linked() && objectTable == old(objectTable)[obj := info]
      ensures rows == old(rows)[obj := Row(path, line, classPath, methodId, gcCount)]
    {
      OthersDiffer(objectTable, owner, obj, info);
      info.path := path;
      info.line := line;
      info.methodId := methodId;
      info.classPath := classPath;
      info.generation := gcCount;
      forall o | o in objectTable && o != obj ensures RowOf(objectTable[o]) == rows[o] {
        assert old(RowOf(objectTable[o])) == rows[o];
      }
      objectTable := objectTable[obj := info];
      rows := rows[obj := Row(path, line, classPath, methodId, gcCount)];
    }

    method InternBoth(path: Text, classPath: Text) returns (pathStr: CString?, classStr: CString?)
      requires Counted()
      modifies this`strTable, this`strings, this`held
      ensures Counted() && held == TakeBoth(old(held), Pointers(pathStr, classStr))
      ensures Content(pathStr) == path && Content(classStr) == classPath
    {
      pathStr := MakeUniqueStr(path);
      classStr := MakeUniqueStr(classPath);
    }

    /**
     NEWOBJ: records an allocation, reusing the info of a stale entry. Both strings
     are interned before the old pointers are given up.
     */
    method NewAllocationInfo(obj: Obj, path: Text, line: nat, definedClass: DefinedClass, methodId: nat, gcCount: nat)
      returns (info: Info)
      requires Valid()
      modifies this, objectTable.Values
      ensures Valid()
      ensures obj in objectTable && objectTable[obj] == info
      ensures Contents() == old(Contents())[obj := Allocation(path, line, ClassPathOf(definedClass), methodId, gcCount)]
      ensures forall i | i in objectTable.Values :: i in old(objectTable.Values) || fresh(i)
    {
      info := Refill(obj, path, line, ClassPathOf(definedClass), methodId, gcCount);
      contents := contents[obj := Allocation(path, line, ClassPathOf(definedClass), methodId, gcCount)];
    }

    method Refill(obj: Obj, path: Text, line: nat, classPath: Text, methodId: nat, gcCount: nat) returns (info: Info)
      requires Valid()
      modifies this`strTable, this`strings, this`held, this`owner, this`objectTable, this`rows, objectTable.Values
      ensures Counted() && Owned() && Linked() && Exact(rows, strings, held)
      ensures Copies(contents[obj := Allocation(path, line, classPath, methodId, gcCount)], rows)
      ensures objectTable == old(objectTable)[obj := info]
      ensures info in old(objectTable.Values) || fresh(info)
    {
      ghost var rows0, strings0, held0 := rows, strings, held;
      var pathStr, classStr := InternBoth(path, classPath);
      var row := Row(pathStr, line, classStr, methodId, gcCount);
      if obj in objectTable {
        Replaceable(obj, rows0, strings0, held0, row.Pair());
      }
      info := Place(obj, row);
      ExactReplace(rows0, strings0, held0, obj, row, rows, strings, held);
      CopiesWith(contents, rows0, obj, row);
    }

    /** Finds or makes the info of an object and fills it. */
    method Place(obj: Obj, row: Row) returns (info: Info)
      requires Counted() && Owned() && Linked()
      requires obj in objectTable ==> RowOf(objectTable[obj]) == rows[obj] && Covers(held, rows[obj].Pair())
      modifies this`strTable, this`strings, this`held, this`owner, this`objectTable, this`rows, objectTable.Values
      ensures Counted() && Owned() && Linked()
      ensures objectTable == old(objectTable)[obj := info] && rows == old(rows)[obj := row]
      ensures held == if obj in old(rows) then GiveBoth(old(held), old(rows)[obj].Pair()) else old(held)
      ensures info in old(objectTable.Values) || fresh(info)
    {
      info := InfoFor(obj);
      Store(obj, info, row.path, row.line, row.classPath, row.methodId, row.generation);
    }

    lemma Replaceable(obj: Obj, rows0: map<Obj, Row>, strings0: set<CString>, held0: Counts, p: Pointers)
      requires Linked() && rows0 == rows && obj in objectTable && Exact(rows0, strings0, held0)
      ensures RowOf(objectTable[obj]) == rows0[obj]
      ensures Covers(TakeBoth(held0, p), RowOf(objectTable[obj]).Pair())
    {
      assert RowOf(objectTable[obj]) == rows[obj];
      ExactCovers(rows0, strings0, held0, obj);
      TakeKeepsCovers(held0, p, rows0[obj].Pair());
    }

    /** Takes an entry out of the object table. */
    method Unlink(obj: Obj) returns (info: Info)
      requires Linked() && Owned() && obj in objectTable
      modifies this`objectTable, this`rows
      ensures info == old(objectTable)[obj] && Linked()
      ensures objectTable == old(objectTable) - {obj}
      ensures rows == old(rows) - {obj}
      ensures info in owner && OwnedIn(objectTable, owner - {info})
      ensures old(rows)[obj] == RowOf(info)
    {
      info := objectTable[obj];
      assert RowOf(info) == rows[obj];
      forall o | o in objectTable ensures RowOf(objectTable[o]) == rows[o] {
      }
      objectTable, rows := objectTable - {obj}, rows - {obj};
    }

    /** FREEOBJ: forgets an object; one that was never recorded is ignored. */
    method DeleteAllocationInfo(obj: Obj)
      requires Valid()
      modifies this
      ensures Valid()
      ensures Contents() == old(Contents()) - {obj}
      ensures objectTable.Values <= old(objectTable.Values)
    {
      if obj in objectTable {
        ghost var rows0, strings0, held0 := rows, strings, held;
        var info := Unlink(obj);
        ExactCovers(rows0, strings0, held0, obj);
        Release(info);
        FreeInfo(info);
        ExactRemove(rows0, strings0, held0, obj, rows, strings, held);
        CopiesWithout(contents, rows0, obj);
        contents := contents - {obj};
      } else {
        assert contents - {obj} == contents;
      }
    }

    /** First half of the teardown: every info in the object table is freed. */
    method FreeInfos()
      requires Owned()
      modifies this`objectTable, this`rows, this`contents, this`owner
      ensures owner == map[] && objectTable == map[] && rows == map[] && contents == map[]
    {
      var objects := objectTable.Keys;
      while objects != {}
        invariant objects <= objectTable.Keys && Unfreed(objects)
        invariant objectTable == old(objectTable)
      {
        var o :| o in objects;
        FreeInfo(objectTable[o]);
        objects := objects - {o};
      }
      assert owner == map[] by {
        assert forall i | i in owner :: owner[i] in objects;
      }
      objectTable, rows, contents := map[], map[], map[];
    }

    /** Second half: every string in the string table is freed, whatever its count. */
    method FreeStrings()
      requires Counted()
      modifies this`strTable, this`strings, this`held
      ensures strings == {} && strTable == map[] && held == map[]
    {
      var keys := strTable.Keys;
      while keys != {}
        invariant keys <= strTable.Keys && strTable == old(strTable)
        invariant forall s | s in keys :: strTable[s].key in strings && strTable[s].key.chars == s
        invariant forall c | c in strings :: c.chars in keys && strTable[c.chars].key == c
      {
        var s :| s in keys;
        FreeString(strTable[s].key);
        keys := keys - {s};
      }
      strTable, held := map[], map[];
    }

    /**
     Server teardown: st_foreach frees every info and then every string. Each free
     demands that its argument is still allocated, and nothing is left.
     */
    method FreeAll()
      requires Valid()
      modifies this
      ensures Valid() && Contents() == map[] && owner == map[] && strings == {}
      ensures objectTable == map[] && strTable == map[]
    {
      FreeInfos();
      FreeStrings();
    }

    /** The infos still allocated are those of the given objects. */
    ghost predicate Unfreed(objects: set<Obj>)
      requires objects <= objectTable.Keys
      reads this`objectTable, this`owner
    {
      && (forall o | o in objects :: objectTable[o] in owner && owner[objectTable[o]] == o)
      && (forall i | i in owner :: owner[i] in objects && objectTable[owner[i]] == i)
    }

    /** The tracepoints fire in any order. */
    method Trace(events: seq<Event>)
      requires Valid()
      modifies this, objectTable.Values
      ensures Valid() && Contents() == Replay(old(Contents()), events)
    {
      for i := 0 to |events|
        invariant Valid() && Contents() == Replay(old(Contents()), events[..i])
        invariant forall x | x in objectTable.Values :: x in old(objectTable.Values) || fresh(x)
      {
        assert events[..i + 1][..i] == events[..i];
        match events[i] {
          case NewObj(obj, path, line, k, methodId, gcCount) =>
            var _ := NewAllocationInfo(obj, path, line, k, methodId, gcCount);
          case FreeObj(obj) =>
            DeleteAllocationInfo(obj);
        }
      }
      assert events[..|events|] == events;
    }
  }

  /**
   Reference-count exactness: each interned string's count is the number of path
   and class_path fields pointing to it, and at least 1; equal strings share one
   pointer, and the allocated strings are exactly the keys of the string table.
   */
  lemma ReferenceCountsExact(t: Tables)
    requires t.Valid()
    ensures forall s | s in t.strTable ::
              var e := t.strTable[s];
              && e.key in t.strings && e.key.chars == s
              && e.count == |set o | o in t.objectTable && t.objectTable[o].path == e.key|
                            + |set o | o in t.objectTable && t.objectTable[o].classPath == e.key| >= 1
    ensures forall c, d | c in t.strings && d in t.strings && c.chars == d.chars :: c == d
    ensures forall c | c in t.strings :: c.chars in t.strTable && t.strTable[c.chars].key == c
    ensures forall o | o in t.objectTable ::
              && (t.objectTable[o].path == null || t.objectTable[o].path in t.strings)
              && (t.objectTable[o].classPath == null || t.objectTable[o].classPath in t.strings)
  {
    var m := t.rows;
    forall o | o in t.objectTable ensures RowOf(t.objectTable[o]) == m[o] {
    }
    forall s | s in t.strTable
      ensures var e := t.strTable[s];
              e.count == |set o | o in t.objectTable && t.objectTable[o].path == e.key|
                         + |set o | o in t.objectTable && t.objectTable[o].classPath == e.key|
    {
      var c := t.strTable[s].key;
      assert Count(t.held, c) == FieldCount(m, c);
      assert PathHolders(m, c) == set o | o in t.objectTable && t.objectTable[o].path == c;
      assert ClassHolders(m, c) == set o | o in t.objectTable && t.objectTable[o].classPath == c;
    }
    forall o | o in t.objectTable ensures PointsInto(RowOf(t.objectTable[o]).Pair(), t.strings) {
      assert PointsInto(m[o].Pair(), t.strings);
    }
  }

  /** Reading an object through the table and the shared strings gives its record in the plain map. */
  lemma LookupIsCopy(t: Tables, o: Obj)
    requires t.Valid()
    ensures o in t.Contents() <==> o in t.objectTable
    ensures o in t.objectTable ==>
              var i := t.objectTable[o];
              && (i.path == null || i.path in t.strings) && (i.classPath == null || i.classPath in t.strings)
              && t.Contents()[o] == Allocation(Content(i.path), i.line, Content(i.classPath), i.methodId, i.generation)
  {
    if o in t.objectTable {
      assert RowOf(t.objectTable[o]) == t.rows[o];
      assert t.Contents()[o] == t.rows[o].Copy();
      assert PointsInto(t.rows[o].Pair(), t.strings);
    }
  }

  /** A pointer to the one interned copy of a string, or null. */
  ghost predicate Holds(t: Tables, c: CString?, s: Text)
    reads t`strTable
  {
    match s
    case None => c == null
    case Some(chars) => c != null && c.chars == chars && chars in t.strTable && t.strTable[chars].key == c
  }

  /** The info of an object says what an allocation reported. */
  ghost predicate Recalls(t: Tables, o: Obj, e: Event)
    requires e.NewObj?
    reads t, t.objectTable.Values
  {
    && o in t.objectTable
    && var info := t.objectTable[o];
       && info.line == e.line && info.methodId == e.methodId && info.generation == e.gcCount
       && Holds(t, info.path, e.path)
       && (match e.definedClass
           case NoClass => info.classPath == null
           case FrozenClass => info.classPath == null
           case OpenClass(cached) => Holds(t, info.classPath, cached))
  }

  lemma HoldsContent(t: Tables, c: CString?)
    requires t.Valid() && (c == null || c in t.strings)
    ensures Holds(t, c, Content(c))
  {
    if c != null {
      ReferenceCountsExact(t);
    }
  }

  lemma TracedRecalls(t: Tables, events: seq<Event>, o: Obj, i: nat)
    requires t.Valid() && t.Contents() == Replay(map[], events)
    requires LastAbout(events, o, i) && events[i].NewObj?
    ensures Recalls(t, o, events[i])
  {
    LatestAllocation(events, o);
    LookupIsCopy(t, o);
    HoldsContent(t, t.objectTable[o].path);
    HoldsContent(t, t.objectTable[o].classPath);
  }

  /**
   From empty tables, after any events: an object is in the table exactly if the
   last event about it was its allocation, and then its info holds the line, the
   numbers and interned copies of the strings that this allocation reported; a
   class path only for a class that is not frozen and has a cached one.
   */
  method TraceAll(events: seq<Event>) returns (t: Tables)
    ensures t.Valid()
    ensures forall o :: o in t.objectTable <==> exists i: nat :: LastAbout(events, o, i) && events[i].NewObj?
    ensures forall o, i: nat | LastAbout(events, o, i) && events[i].NewObj? :: Recalls(t, o, events[i])
  {
    t := new Tables();
    t.Trace(events);
    forall o ensures o in t.objectTable <==> exists i: nat :: LastAbout(events, o, i) && events[i].NewObj? {
      LatestAllocation(events, o);
      LookupIsCopy(t, o);
    }
    forall o, i: nat | LastAbout(events, o, i) && events[i].NewObj? ensures Recalls(t, o, events[i]) {
      TracedRecalls(t, events, o, i);
    }
  }

  // ----- the plain map that the tables refine

  datatype Event =
    | NewObj(obj: Obj, path: Text, line: nat, definedClass: DefinedClass, methodId: nat, gcCount: nat)
    | FreeObj(obj: Obj)

  /** A map of copied records under the same events. */
  function Replay(m: map<Obj, Allocation>, events: seq<Event>): map<Obj, Allocation> {
    if events == [] then m
    else
      var before := Replay(m, events[..|events| - 1]);
      match events[|events| - 1]
      case NewObj(o, path, line, k, methodId, gcCount) =>
        before[o := Allocation(path, line, ClassPathOf(k), methodId, gcCount)]
      case FreeObj(o) => before - {o}
  }

  /** The last event about an object, if there is one. */
  predicate LastAbout(events: seq<Event>, o: Obj, i: nat) {
    i < |events| && events[i].obj == o && forall j | i < j < |events| :: events[j].obj != o
  }

  /**
   After any events, an object is in the table exactly if the last event about it
   was its allocation, and then the table holds what that allocation reported.
   */
  lemma {:induction false} LatestAllocation(events: seq<Event>, o: Obj)
    ensures o in Replay(map[], events) <==> exists i: nat :: LastAbout(events, o, i) && events[i].NewObj?
    ensures forall i: nat | LastAbout(events, o, i) && events[i].NewObj? ::
              var a, e := Replay(map[], events)[o], events[i];
              && a.path == e.path && a.line == e.line && a.methodId == e.methodId && a.generation == e.gcCount
              && (match e.definedClass
                  case OpenClass(Some(s)) => a.classPath == Some(s)
                  case _ => a.classPath == None)
  {
    if events != [] {
      var n := |events| - 1;
      var before := events[..n];
      LatestAllocation(before, o);
      if events[n].obj == o {
        assert LastAbout(events, o, n);
      } else {
        forall i: nat ensures LastAbout(events, o, i) <==> LastAbout(before, o, i) {
          if LastAbout(before, o, i) {
            assert events[i] == before[i];
          }
          if LastAbout(events, o, i) {
            assert forall j | i < j < n :: before[j] == events[j];
          }
        }
      }
    }
  }
}
