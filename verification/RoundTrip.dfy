/** Capturing and rebuilding: the walk and the reader's object cache as inverses of each other. */
module RoundTrip {
  import opened Bytes
  import opened Format
  import opened Log
  import opened Reading
  import opened Objects
  import opened Walk
  import opened Rebuild
  import opened Layout
  import opened Writing
  import opened Runs
  import opened Stacks
  import opened Capture

  // ------------------------------------------------------------------
  // Cycles through exact tuples
  // ------------------------------------------------------------------

  ghost predicate ObjectPath(g: Graph, x: U64, y: U64, n: nat)
    decreases n
  {
    if n == 0 then x == y else exists z :: ObjectPath(g, x, z, n - 1) && z in g && y in Children(g[z])
  }

  predicate IsTupleObject(o: PyObject) {
    o.body.SeqBody? && o.body.kind == TupleKind && o.body.attrs.None?
  }

  /** No object of the exact type tuple can be reached from itself. */
  ghost predicate TuplesAcyclic(g: Graph) {
    forall x, n: nat :: x in g && IsTupleObject(g[x]) && n > 0 ==> !ObjectPath(g, x, x, n)
  }

  /** Only objects with a record have an offset in the heap: the file is too small for the others. */
  lemma RecordMeansNoMagic(g: Graph, s: State, x: U64)
    requires Owned(s) && AllDescribed(g, s) && x in s.objects && s.objects[x] in s.heap
    ensures !IsMagic(g[x])
  {
    hide FullRec, LimitRec, SameButRepr, Unreadable;
  }

  /** An edge between records is a reference between the objects they describe. */
  lemma EdgeIsReference(g: Graph, s: State, x: U64, b: U64) returns (c: U64)
    requires Owned(s) && AllDescribed(g, s) && x in s.objects && Edge(s.heap, s.objects, s.objects[x], b)
    ensures x in g && c in Children(g[x]) && c in s.objects && s.objects[c] == b && !IsMagicOffset(b)
  {
    hide FullRec, LimitRec, SameButRepr, RecChildren, Children, Unreadable, Owned;
    var a := s.objects[x];
    c :| c in RecChildren(s.heap[a]) && c in s.objects && s.objects[c] == b && !IsMagicOffset(b);
    RecordMeansNoMagic(g, s, x);
    RecordKeepsChildren(g[x]);
    if Describes(g, s, x, true) {
      SameChildren(s.heap[a], FullRec(g[x]));
    }
  }

  lemma {:induction false} PathIsObjectPath(g: Graph, s: State, x: U64, b: U64, n: nat) returns (y: U64)
    requires Owned(s) && AllDescribed(g, s) && x in s.objects && Path(s.heap, s.objects, s.objects[x], b, n)
    ensures y in s.objects && s.objects[y] == b && ObjectPath(g, x, y, n)
    decreases n
  {
    hide Owned, AllDescribed, Edge, Children;
    if n == 0 {
      y := x;
    } else {
      var a :| Path(s.heap, s.objects, s.objects[x], a, n - 1) && Edge(s.heap, s.objects, a, b);
      var z := PathIsObjectPath(g, s, x, a, n - 1);
      y := EdgeIsReference(g, s, z, b);
    }
  }

  lemma TupleRecordIsTuple(g: Graph, s: State, t: U64)
    requires Owned(s) && AllDescribed(g, s) && t in s.objects && s.objects[t] in s.heap
    requires IsExactTuple(s.heap[s.objects[t]])
    ensures t in g && IsTupleObject(g[t])
  {
    hide Unreadable, Owned;
    RecordMeansNoMagic(g, s, t);
  }

  /** Records form a cycle through an exact tuple only if objects do. */
  lemma RecordsAcyclic(g: Graph, s: State, root: U64)
    requires Owned(s) && AllDescribed(g, s) && TuplesAcyclic(g)
    ensures NoTupleCycles(s.heap, s.objects, root)
  {
    hide Owned, AllDescribed, Path, ObjectPath, Children, IsTupleObject, RecChildren, Edge, Reachable;
    forall t | Reachable(s.heap, s.objects, root, t) ensures !TupleOnCycle(s.heap, s.objects, t) {
      if TupleOnCycle(s.heap, s.objects, t) {
        var u: U64 :| Reachable(s.heap, s.objects, t, u) && Edge(s.heap, s.objects, u, t);
        var n := LengthOf(s.heap, s.objects, t, u);
        OnTupleCycle(g, s, t, u, n);
      }
    }
  }

  lemma LengthOf(heap: map<nat, Rec>, m: map<U64, U64>, a: U64, b: U64) returns (n: nat)
    requires Reachable(heap, m, a, b)
    ensures Path(heap, m, a, b, n)
  {
    n :| Path(heap, m, a, b, n);
  }

  lemma OnTupleCycle(g: Graph, s: State, t: U64, u: U64, n: nat)
    requires Owned(s) && AllDescribed(g, s) && t in s.heap && IsExactTuple(s.heap[t])
    requires Path(s.heap, s.objects, t, u, n) && Edge(s.heap, s.objects, u, t)
    ensures !TuplesAcyclic(g)
  {
    hide AllDescribed, IsTupleObject, Children, RecChildren;
    assert Path(s.heap, s.objects, t, t, n + 1);
    var c :| c in RecChildren(s.heap[u]) && c in s.objects && s.objects[c] == t && !IsMagicOffset(t);
    var y := PathIsObjectPath(g, s, c, t, n + 1);
    TupleRecordIsTuple(g, s, c);
    assert y == c;
  }

  // ------------------------------------------------------------------
  // The theorem
  // ------------------------------------------------------------------

  /** The node of an object: its record, and for a full record the nodes of its children in place. */
  ghost predicate NodeShows(g: Graph, s: State, b: Built, id: U64, full: bool)
    requires id in g && id in s.objects && s.objects[id] in b.cache && b.cache[s.objects[id]] < |b.store|
    requires !IsMagic(g[id]) && !Unreadable(g[id])
  {
    var n := b.store[b.cache[s.objects[id]]];
    if full then !n.standIn && SameButRepr(n.rec, FullRec(g[id]))
      && n.refs == Values(s.objects, b.cache, Children(g[id]))
    else n == Node(LimitRec(g[id]), [], false)
  }

  lemma NodeIs(g: Graph, s: State, b: Built, root: U64, id: U64, full: bool)
    requires Owned(s) && AllDescribed(g, s) && Mirrors(s.heap, s.objects, b, root)
    requires id in s.objects && s.objects[id] in b.cache && Describes(g, s, id, full)
    ensures !IsMagic(g[id]) && !Unreadable(g[id]) && b.cache[s.objects[id]] < |b.store|
    ensures NodeShows(g, s, b, id, full)
  {
    hide FullRec, LimitRec, SameButRepr, RecChildren, Children, Unreadable, Reachable;
    assert Complete(s.heap, s.objects, b, s.objects[id]);
    RecordMeansNoMagic(g, s, id);
    RecordKeepsChildren(g[id]);
    if full {
      SameChildren(s.heap[s.objects[id]], FullRec(g[id]));
    } else {
      assert Values(s.objects, b.cache, []) == [];
    }
  }

  /** What an object looks like among the rebuilt ones. */
  ghost predicate LooksLike(g: Graph, s: State, b: Built, id: U64, v: Value) {
    id in g &&
    if Unreadable(g[id]) then v == NoneValue
    else if g[id].body.NoneBody? then v == NoneValue
    else if g[id].body.BoolBody? then v == BoolValue(g[id].body.value)
    else id in s.objects && s.objects[id] in b.cache && v == Ref(b.cache[s.objects[id]])
  }

  /** Nothing dangles: every child of an object in full is there, as itself. */
  lemma ChildrenComeBack(g: Graph, s: State, b: Built, root: U64, id: U64, i: nat)
    requires Owned(s) && AllDescribed(g, s) && Closed(g, s, []) && Mirrors(s.heap, s.objects, b, root)
    requires id in s.objects && s.objects[id] in b.cache && Describes(g, s, id, true) && i < |Children(g[id])|
    ensures LooksLike(g, s, b, Children(g[id])[i], Values(s.objects, b.cache, Children(g[id]))[i])
  {
    hide FullRec, LimitRec, SameButRepr, RecChildren, Children, Reachable, Unreadable;
    var off, c := s.objects[id], Children(g[id])[i];
    RecordMeansNoMagic(g, s, id);
    RecordKeepsChildren(g[id]);
    SameChildren(s.heap[off], FullRec(g[id]));
    assert c in RecChildren(s.heap[off]) && Covered(g, s, [], off) && Complete(s.heap, s.objects, b, off);
    ChildIs(g, s, b, off, c);
  }

  lemma ChildIs(g: Graph, s: State, b: Built, off: U64, c: U64)
    requires Owned(s) && AllDescribed(g, s) && Complete(s.heap, s.objects, b, off) && Covered(g, s, [], off)
    requires c in RecChildren(s.heap[off])
    ensures LooksLike(g, s, b, c, ValueOf(s.objects, b.cache, c))
  {
    hide FullRec, LimitRec, SameButRepr, RecChildren;
    if c in s.objects {
      assert Describes(g, s, c, true) || Describes(g, s, c, false);
    }
  }

  // ------------------------------------------------------------------
  // Keys and names that come back as text
  // ------------------------------------------------------------------

  predicate IsKeyAt(o: PyObject, i: nat) {
    o.body.DictBody? && o.body.attrs.Some? && i % 2 == 0 && i < 2 * |o.body.entries|
  }

  predicate IsNameAt(o: PyObject, i: nat) {
    match o.body
    case SeqBody(_, items, Some(_)) => |items| <= i && (i - |items|) % 2 == 0
    case DictBody(entries, Some(_)) => i % 2 == 0 && 2 * |entries| <= i
    case OtherBody(_) => i % 2 == 0
    case _ => false
  }

  /** Strings, and objects that are captured as their repr because of their type, not of the limit. */
  predicate ComesAsStr(g: Graph, s: State, id: U64) {
    && id in g && !Unreadable(g[id])
    && match g[id].body
       case TextBody(isBytes, _, _) => !isBytes
       case ReprBody => id in s.objects && s.objects[id] in s.heap && s.heap[s.objects[id]] == FullRec(g[id])
       case _ => false
  }

  predicate ComesAsNumber(g: Graph, id: U64) {
    id in g && !Unreadable(g[id]) && (g[id].body.BoolBody? || g[id].body.IntBody? || g[id].body.FloatBody?)
  }

  /** A key of a subclass of dict that is no str, int, float or bool, and a name that is no str. */
  predicate BecomesText(g: Graph, s: State, o: PyObject, i: nat)
    requires i < |Children(o)|
  {
    var c := Children(o)[i];
    (IsKeyAt(o, i) && !ComesAsStr(g, s, c) && !ComesAsNumber(g, c)) || (IsNameAt(o, i) && !ComesAsStr(g, s, c))
  }

  /** What is in a place of a rebuilt object: the object that was there, or its text. */
  ghost predicate SlotShows(g: Graph, s: State, b: Built, o: PyObject, rec: Rec, i: nat, v: Value)
    requires i < |Children(o)|
  {
    SlotFor(b.store, PlaceIn(rec, i), v) == if BecomesText(g, s, o, i) then TextOf(v) else Itself(v)
  }

  lemma PlacesComeBack(o: PyObject, rec: Rec, i: nat)
    requires !IsMagic(o) && !Unreadable(o) && SameButRepr(rec, FullRec(o)) && i < |Children(o)|
    ensures PlaceIn(rec, i) == KeyPlace <==> IsKeyAt(o, i)
    ensures PlaceIn(rec, i) == NamePlace <==> IsNameAt(o, i)
  {
  }

  /** The kind of a record says whether the object was a string or a number. */
  lemma KindOfRecord(g: Graph, s: State, c: U64, full: bool)
    requires c in g && c in s.objects && !IsMagic(g[c]) && Describes(g, s, c, full) && (full || !IsLeaf(g[c]))
    ensures s.objects[c] in s.heap
    ensures IsStrRec(s.heap[s.objects[c]]) <==> ComesAsStr(g, s, c)
    ensures IsNumberRec(s.heap[s.objects[c]]) <==> ComesAsNumber(g, c)
  {
    hide Children;
    if full {
      SameKind(s.heap[s.objects[c]], FullRec(g[c]));
    }
  }

  lemma SameKind(r: Rec, r': Rec)
    requires SameButRepr(r, r')
    ensures r.Text? || r'.Text? || r.Int64? || r'.Int64? || r.Float? || r'.Float? ==> r == r'
  {
  }

  lemma KindComesBack(g: Graph, s: State, b: Built, root: U64, c: U64, v: Value)
    requires Owned(s) && AllDescribed(g, s) && Mirrors(s.heap, s.objects, b, root) && LooksLike(g, s, b, c, v)
    ensures IsStr(b.store, v) <==> ComesAsStr(g, s, c)
    ensures IsNumber(b.store, v) <==> ComesAsNumber(g, c)
  {
    hide Reachable, FullRec, LimitRec, SameButRepr, Owned, Describes, IsStrRec, IsNumberRec, RecChildren;
    if v.Ref? {
      hide ComesAsStr, ComesAsNumber;
      assert Complete(s.heap, s.objects, b, s.objects[c]);
      KindOfRecord(g, s, c, Describes(g, s, c, true));
    }
  }

  lemma KeysComeBack(g: Graph, s: State, b: Built, root: U64, id: U64, i: nat)
    requires Owned(s) && AllDescribed(g, s) && Closed(g, s, []) && Mirrors(s.heap, s.objects, b, root)
    requires id in s.objects && s.objects[id] in b.cache && id in g && Describes(g, s, id, true)
    requires i < |Children(g[id])|
    ensures b.cache[s.objects[id]] < |b.store|
    ensures
      var n := b.store[b.cache[s.objects[id]]];
      i < |n.refs| && SlotShows(g, s, b, g[id], n.rec, i, n.refs[i])
  {
    hide FullRec, SameButRepr, Children, Unreadable, Owned, AllDescribed, Closed, Mirrors, LooksLike, IsKeyAt, IsNameAt,
         PlaceIn, ComesAsStr, ComesAsNumber, IsStr, IsNumber;
    NodeIs(g, s, b, root, id, true);
    ChildrenComeBack(g, s, b, root, id, i);
    PlacesComeBack(g[id], b.store[b.cache[s.objects[id]]].rec, i);
    KindComesBack(g, s, b, root, Children(g[id])[i], Values(s.objects, b.cache, Children(g[id]))[i]);
  }

  /**
   * Capture, then rebuild. Distinct objects come back as distinct nodes; an object nearer than the
   * limit comes back with each of its children in its place, shared and cyclic as they were, though
   * some keys and names as their text; one at the limit comes back as its repr; and nothing that is
   * reachable is missing.
   */
  ghost predicate Restored(g: Graph, roots: set<U64>, limit: Option<nat>, s: State, b: Built) {
    && (forall x, y :: x in s.objects && y in s.objects && SameNode(s, b, x, y) ==> x == y)
    && (forall id, d: nat :: id in s.objects && s.objects[id] in b.cache && AtDistance(g, roots, id, d) ==>
          ObjectRestored(g, s, b, id, IsLeafAt(g, id) || !AtLimit(limit, d)))
  }

  predicate SameNode(s: State, b: Built, x: U64, y: U64)
    requires x in s.objects && y in s.objects
  {
    s.objects[x] in b.cache && s.objects[y] in b.cache && b.cache[s.objects[x]] == b.cache[s.objects[y]]
  }

  lemma NodesDistinct(s: State, b: Built, root: U64, x: U64, y: U64)
    requires Owned(s) && Mirrors(s.heap, s.objects, b, root)
    requires x in s.objects && y in s.objects && SameNode(s, b, x, y)
    ensures x == y
  {
    assert Complete(s.heap, s.objects, b, s.objects[x]);
  }

  predicate IsLeafAt(g: Graph, id: U64) {
    id in g && IsLeaf(g[id])
  }

  ghost predicate ObjectRestored(g: Graph, s: State, b: Built, id: U64, full: bool) {
    && id in g && id in s.objects && s.objects[id] in b.cache && b.cache[s.objects[id]] < |b.store|
    && !IsMagic(g[id]) && !Unreadable(g[id]) && NodeShows(g, s, b, id, full)
    && (full ==>
          var n := b.store[b.cache[s.objects[id]]];
          forall i :: 0 <= i < |Children(g[id])| ==>
            LooksLike(g, s, b, Children(g[id])[i], n.refs[i]) && SlotShows(g, s, b, g[id], n.rec, i, n.refs[i]))
  }

  lemma CapturedIsDescribed(g: Graph, roots: set<U64>, limit: Option<nat>, s: State, hit: bool)
    requires Captured(g, roots, limit, s, hit)
    ensures AllDescribed(g, s)
  {
    hide Describes, AtDistance;
    forall id | id in s.objects
      ensures id in g && (Describes(g, s, id, true) || (!IsLeaf(g[id]) && Describes(g, s, id, false)))
    {
      var d: nat :| AtDistance(g, roots, id, d);
      assert Describes(g, s, id, IsLeaf(g[id]) || !AtLimit(limit, d));
    }
  }

  lemma OneRestored(g: Graph, s: State, b: Built, root: U64, id: U64, full: bool)
    requires Owned(s) && AllDescribed(g, s) && Closed(g, s, []) && Mirrors(s.heap, s.objects, b, root)
    requires id in s.objects && s.objects[id] in b.cache && id in g && Describes(g, s, id, full)
    ensures ObjectRestored(g, s, b, id, full)
  {
    hide FullRec, LimitRec, SameButRepr, Children, Reachable, Unreadable, Owned, AllDescribed, Closed, Mirrors,
         Describes, LooksLike, SlotShows;
    NodeIs(g, s, b, root, id, full);
    if full {
      var n := b.store[b.cache[s.objects[id]]];
      forall i | 0 <= i < |Children(g[id])|
        ensures LooksLike(g, s, b, Children(g[id])[i], n.refs[i]) && SlotShows(g, s, b, g[id], n.rec, i, n.refs[i])
      {
        ChildrenComeBack(g, s, b, root, id, i);
        KeysComeBack(g, s, b, root, id, i);
      }
    }
  }

  lemma CaptureThenRebuild(g: Graph, roots: set<U64>, limit: Option<nat>, s: State, hit: bool, b: Built, root: U64)
    requires Owned(s) && Captured(g, roots, limit, s, hit) && Closed(g, s, []) && Mirrors(s.heap, s.objects, b, root)
    ensures Restored(g, roots, limit, s, b)
  {
    hide Closed, AllDescribed, Describes, AtDistance, ObjectRestored, Reachable, Complete;
    CapturedIsDescribed(g, roots, limit, s, hit);
    forall x, y | x in s.objects && y in s.objects && SameNode(s, b, x, y) ensures x == y {
      NodesDistinct(s, b, root, x, y);
    }
    forall id, d: nat | id in s.objects && s.objects[id] in b.cache && AtDistance(g, roots, id, d)
      ensures ObjectRestored(g, s, b, id, IsLeafAt(g, id) || !AtLimit(limit, d))
    {
      assert id in g && Describes(g, s, id, IsLeaf(g[id]) || !AtLimit(limit, d));
      OneRestored(g, s, b, root, id, IsLeafAt(g, id) || !AtLimit(limit, d));
    }
  }

  // ------------------------------------------------------------------
  // Through the file
  // ------------------------------------------------------------------

  lemma HeapReadable(img: seq<Byte>, c: Counters, snaps: seq<Snap>, s: State)
    requires Inv(img, c, snaps, s) && s.committed != []
    ensures c.heapStart <= MAX_FILE_SIZE && HeapIn(img, c.heapStart, s.heap)
    ensures forall k :: 0 <= k < |s.committed| ==> MapGood(s.heap, s.committed[k].objectMap)
  {
    hide Inv, At, EncRec, LE;
    TablesKept(img, c, snaps, s);
    InvHeap(img, c, snaps, s, 0);
    forall off | off in s.heap ensures off < NONE_OFFSET && At(img, c.heapStart + off, EncRec(s.heap[off])) {
      HeapOffsetSmall(img, c, snaps, s, off);
      InvHeap(img, c, snaps, s, off);
    }
    forall k | 0 <= k < |s.committed| ensures MapGood(s.heap, s.committed[k].objectMap) {
      forall id | id in s.committed[k].objectMap
        ensures IsMagicOffset(s.committed[k].objectMap[id]) || s.committed[k].objectMap[id] in s.heap
      {
        assert GoodOffset(s, s.committed[k].objectMap[id]);
      }
    }
  }

  lemma HeapOffsetSmall(img: seq<Byte>, c: Counters, snaps: seq<Snap>, s: State, off: nat)
    requires Inv(img, c, snaps, s) && off in s.heap
    ensures off < NONE_OFFSET
  {
    hide EncRec;
    TablesKept(img, c, snaps, s);
    InvOrder(img, c, snaps, s);
    InvFlags(img, c, snaps, s);
  }

  /** Through a reader on the live mapping, any object of a committed snapshot, with all that hangs on it. */
  method ObserveGraph(w: SnapshotWriter, r: SnapshotReader, ghost k: nat, objectMap: map<U64, U64>, id: U64)
    returns (v: Value, built: ObjectCache)
    requires w.Valid() && w.initialized && w.reader == r
    requires k < |w.st.committed| && objectMap == w.st.committed[k].objectMap && HasNode(objectMap, id)
    ensures OneNodeEach(w.st.heap, objectMap, built.B(), objectMap[id])
    ensures forall off :: off in built.cache ==> Filled(w.st.heap, objectMap, built.B(), off)
    ensures Mirrors(w.st.heap, objectMap, built.B(), objectMap[id]) <==>
      !TupleMetFirst(w.st.heap, objectMap, Preorder(w.st.heap, objectMap, id))
    ensures v == ValueOf(objectMap, built.cache, id) && v.Ref? && built.Placed()
  {
    hide Inv, Growth, HeapIn, MapGood, OneNodeEach, Mirrors, TupleMetFirst, Preorder, Filled;
    HeapReadable(w.mem[..], w.C(), w.snaps, w.st);
    v, built := RebuildObject(r.data[..], id, objectMap, w.heapStart, w.st.heap);
  }

  /** The exceptions of stacktraces, if they have one. */
  function ExceptionIds(stacks: seq<Stack>): (ids: seq<Option<U64>>)
    ensures |ids| == |stacks|
    ensures forall i :: 0 <= i < |ids| ==> ids[i] == if stacks[i].info.exceptionId == 0 then None
      else Some(stacks[i].info.exceptionId)
  {
    seq(|stacks|, i
        requires 0 <= i < |stacks| => if stacks[i].info.exceptionId == 0 then None
          else Some(stacks[i].info.exceptionId))
  }

  /** Parsing a snapshot rebuilds the exception objects of its stacktraces in their order, all with one cache. */
  method ObserveExceptions(w: SnapshotWriter, r: SnapshotReader, ghost k: nat, objectMap: map<U64, U64>,
                           stacks: seq<Stack>)
    returns (values: seq<Value>, built: ObjectCache)
    requires w.Valid() && w.initialized && w.reader == r
    requires k < |w.st.committed| && objectMap == w.st.committed[k].objectMap && stacks == w.st.committed[k].stacks
    ensures |values| == |stacks|
    ensures forall i :: 0 <= i < |stacks| ==> values[i] == ValueOfSome(objectMap, built.cache, ExceptionIds(stacks)[i])
    ensures forall i :: 0 <= i < |stacks| ==> HasBuilt(objectMap, built.cache, ExceptionIds(stacks)[i])
    ensures built.Placed()
    ensures forall off :: off in built.cache ==> Filled(w.st.heap, objectMap, built.B(), off)
    ensures AllComplete(w.st.heap, objectMap, built.B()) <==>
      !TupleMetFirst(w.st.heap, objectMap, MeetAll(w.st.heap, objectMap, Somes(ExceptionIds(stacks)), []))
  {
    hide Inv, Growth, HeapIn, MapGood, AllComplete, TupleMetFirst, Filled, MeetAll, Somes;
    HeapReadable(w.mem[..], w.C(), w.snaps, w.st);
    values, built := RebuildEach(r.data[..], ExceptionIds(stacks), objectMap, w.heapStart, w.st.heap);
  }

  ghost predicate OneIsRestored(g: Graph, s: State, b: Built, id: U64) {
    ObjectRestored(g, s, b, id, true) || (!IsLeafAt(g, id) && ObjectRestored(g, s, b, id, false))
  }

  /** Every object that was built is restored, in full or as its repr, and no two as one. */
  ghost predicate AllRestored(g: Graph, s: State, b: Built) {
    && (forall x, y :: x in s.objects && y in s.objects && SameNode(s, b, x, y) ==> x == y)
    && (forall id :: id in s.objects && s.objects[id] in b.cache ==> OneIsRestored(g, s, b, id))
  }

  lemma WholeRestored(g: Graph, s: State, b: Built, root: U64)
    requires Whole(g, s) && Mirrors(s.heap, s.objects, b, root)
    ensures AllRestored(g, s, b)
  {
    hide Closed, Owned, Faithful, Describes, ObjectRestored, Reachable, Complete;
    forall x, y | x in s.objects && y in s.objects && SameNode(s, b, x, y) ensures x == y {
      NodesDistinct(s, b, root, x, y);
    }
    forall id | id in s.objects && s.objects[id] in b.cache
      ensures OneIsRestored(g, s, b, id)
    {
      OneRestored(g, s, b, root, id, Describes(g, s, id, true));
    }
  }

  /**
   * All that was built comes back as captured exactly if no exact tuple is met before the rest of one of
   * its cycles, and none is if no tuple is on a cycle.
   */
  ghost predicate ComesBack(g: Graph, s: State, b: Built, id: U64) {
    && (AllRestored(g, s, b) <==> !TupleMetFirst(s.heap, s.objects, Preorder(s.heap, s.objects, id)))
    && (TuplesAcyclic(g) ==> !TupleMetFirst(s.heap, s.objects, Preorder(s.heap, s.objects, id)))
  }

  /**
   * From the live stack to Python objects again: take a snapshot, look it up through the borrowed
   * reader, and rebuild one of its objects. Unless the cancel flag cut a walk short, which the snapshot
   * would say, the object comes back with everything it leads to, as captured, exactly if rebuilding does
   * not meet an exact tuple before the rest of one of its cycles.
   */
  method CaptureAndRebuild(w: SnapshotWriter, r: SnapshotReader, g: Graph, timestamp: U64, info: StackInfo,
                           source: Source, filters: seq<Str>, maxFrames: Option<nat>, limit: Option<nat>,
                           cancel: CancelFlag, id: U64)
    returns (o: Outcome, written: bool, objectMap: map<U64, U64>, v: Value, built: ObjectCache?)
    requires w.Valid() && w.initialized && w.reader == r && w.st.objects == map[]
    requires ClosedGraph(g) && Sound(g, w.st)
    requires LocalsInGraph(g, if source.CurrentStack? then source.frames else source.entries)
    requires cancel.Valid() && !cancel.Seen() && !cancel.cut
    modifies w, w.mem, w.reader, cancel
    ensures w.Valid() && w.initialized && w.reader == old(w.reader) && cancel.Valid()
    ensures o.Done? ==>
      SnapshotTaken(g, old(w.st), w.st, timestamp, info, OrderOf(source, filters, maxFrames, limit), written,
                    cancel.Seen(), cancel.cut)
    ensures o.Done? ==> cancel.Looked(LooksFor(g, old(w.st), OrderOf(source, filters, maxFrames, limit), 0))
    ensures o.Failed? ==> !written && GivenUp(w, g, timestamp, info, OrderOf(source, filters, maxFrames, limit), o)
    ensures !written ==> built == null
    ensures written ==>
      o.Done? && objectMap == w.st.committed[|old(w.st).committed|].objectMap
        && (built != null <==> HasNode(objectMap, id))
    ensures built != null ==> v == ValueOf(objectMap, built.cache, id) && v.Ref? && built.Placed()
    ensures built != null ==> OneNodeEach(w.st.heap, objectMap, built.B(), objectMap[id])
    ensures built != null && (!w.st.committed[|old(w.st).committed|].truncated || !cancel.cut) ==>
      ComesBack(g, w.st.(objects := objectMap), built.B(), id)
  {
    hide Inv, Growth, ClosedGraph, TuplesAcyclic, LocalsInGraph, Sound, Closed, SnapshotTaken, AllRestored, Unfiltered,
         OneNodeEach, Mirrors, NoTupleCycles, TupleMetFirst, Preorder, Filled, LooksFor, GivenUp, Wanted, ComesBack;
    objectMap, v, built := map[], NoneValue, null;
    ghost var s := w.st;
    o, written := TakeSnapshot(w, g, timestamp, info, source, filters, maxFrames, limit, cancel);
    if o.Failed? || !written {
      return;
    }
    TakenMap(g, s, w.st, timestamp, info, OrderOf(source, filters, maxFrames, limit), cancel.Seen(), cancel.cut);
    ghost var k: nat := |s.committed|;
    var latest := ObserveLatest(w, r);
    objectMap := latest.objectMap;
    if id !in objectMap || IsMagicOffset(objectMap[id]) {
      return;
    }
    v, built := ObserveGraph(w, r, k, objectMap, id);
    if !cancel.cut {
      RestoredUnless(g, w.st.(objects := objectMap), built.B(), id);
    }
  }

  lemma RestoredUnless(g: Graph, s: State, b: Built, id: U64)
    requires Whole(g, s) && HasNode(s.objects, id) && OneNodeEach(s.heap, s.objects, b, s.objects[id])
    requires forall off :: off in b.cache ==> Filled(s.heap, s.objects, b, off)
    requires Mirrors(s.heap, s.objects, b, s.objects[id]) <==>
      !TupleMetFirst(s.heap, s.objects, Preorder(s.heap, s.objects, id))
    ensures ComesBack(g, s, b, id)
  {
    hide TuplesAcyclic, Sound, Closed, AllRestored, Mirrors, NoTupleCycles, TupleMetFirst, Preorder, OneNodeEach,
         Filled;
    SoundIsDescribed(g, s);
    if TuplesAcyclic(g) {
      RecordsAcyclic(g, s, s.objects[id]);
      AcyclicIsSafe(s.heap, s.objects, id);
    }
    if Mirrors(s.heap, s.objects, b, s.objects[id]) {
      WholeRestored(g, s, b, s.objects[id]);
    } else if AllRestored(g, s, b) {
      RestoredMirrors(g, s, b, id);
    }
  }

  /** If every object is restored, the built graph is the written one. */
  lemma RestoredMirrors(g: Graph, s: State, b: Built, id: U64)
    requires Whole(g, s) && HasNode(s.objects, id) && OneNodeEach(s.heap, s.objects, b, s.objects[id])
    requires AllRestored(g, s, b)
    requires forall off :: off in b.cache ==> Filled(s.heap, s.objects, b, off)
    ensures Mirrors(s.heap, s.objects, b, s.objects[id])
  {
    hide Closed, Owned, Faithful, AllDescribed, ObjectRestored, Reachable, Complete, Filled;
    forall off | off in b.cache ensures Complete(s.heap, s.objects, b, off) {
      var x := IdOfNode(s, b, id, off);
      RestoredIsComplete(g, s, b, x);
    }
  }

  lemma IdOfNode(s: State, b: Built, root: U64, off: U64) returns (id: U64)
    requires HasNode(s.objects, root) && OneNodeEach(s.heap, s.objects, b, s.objects[root]) && off in b.cache
    ensures HasNode(s.objects, id) && s.objects[id] == off
  {
    hide Edge;
    var n: nat :| Path(s.heap, s.objects, s.objects[root], off, n);
    if n == 0 {
      id := root;
    } else {
      var x: U64 :| Path(s.heap, s.objects, s.objects[root], x, n - 1) && Edge(s.heap, s.objects, x, off);
      var i := EdgeFrom(s.heap, s.objects, x, off);
      id := RecChildren(s.heap[x])[i];
    }
  }

  lemma RestoredIsComplete(g: Graph, s: State, b: Built, id: U64)
    requires HasNode(s.objects, id) && s.objects[id] in b.cache && Filled(s.heap, s.objects, b, s.objects[id])
    requires OneIsRestored(g, s, b, id)
    ensures Complete(s.heap, s.objects, b, s.objects[id])
  {
    hide FullRec, LimitRec, SameButRepr, RecChildren, Children, Unreadable, LooksLike, RefOf, SlotShows;
    RecordKeepsChildren(g[id]);
    if ObjectRestored(g, s, b, id, true) {
      SameChildren(s.heap[s.objects[id]], FullRec(g[id]));
    } else {
      assert Values(s.objects, b.cache, []) == [];
    }
  }

  lemma SoundIsDescribed(g: Graph, s: State)
    requires Sound(g, s)
    ensures Owned(s) && AllDescribed(g, s)
  {
  }

  /** A snapshot that is not marked truncated was not cut short, and what was not cut short can be followed. */
  lemma TakenMap(g: Graph, s: State, s': State, timestamp: U64, info: StackInfo, order: Order, seen: bool, cut: bool)
    requires SnapshotTaken(g, s, s', timestamp, info, order, true, seen, cut) && Sound(g, s) && s.objects == map[]
    ensures |s'.committed| == |s.committed| + 1
    ensures !s'.committed[|s.committed|].truncated ==> !cut
    ensures !cut ==> Whole(g, s'.(objects := s'.committed[|s.committed|].objectMap))
  {
    hide Sound, Closed, LocalsKnown, FramesHit, TablesAfter;
  }
}
