/**
 * What a capture can take: every object of the graph is written at most once and mapped at most once,
 * so the bytes a capture can still ask for are known before it starts.
 */
module Budget {
  import opened Bytes
  import opened Format
  import opened Log
  import opened Layout
  import opened Reading
  import opened Writing
  import opened Space
  import opened Objects
  import opened Walk

  /** The larger of the two records an object can be written as. */
  function LargestRecord(o: PyObject): nat {
    if IsMagic(o) || Unreadable(o) then 0
    else
      var full, limit := |EncRec(FullRec(o))|, |EncRec(LimitRec(o))|;
      if full < limit then limit else full
  }

  function CostOf(g: Graph, id: U64): nat {
    if id in g then LargestRecord(g[id]) else 0
  }

  /** The records of these objects, each written once. */
  ghost function HeapBytes(g: Graph, ids: set<U64>): nat {
    if ids == {} then 0
    else
      var id :| id in ids;
      CostOf(g, id) + HeapBytes(g, ids - {id})
  }

  lemma {:induction false} HeapBytesWithout(g: Graph, ids: set<U64>, x: U64)
    requires x in ids
    ensures HeapBytes(g, ids) == CostOf(g, x) + HeapBytes(g, ids - {x})
    decreases |ids|
  {
    hide CostOf;
    var id :| id in ids && HeapBytes(g, ids) == CostOf(g, id) + HeapBytes(g, ids - {id});
    if id != x {
      HeapBytesWithout(g, ids - {id}, x);
      HeapBytesWithout(g, ids - {x}, id);
      assert ids - {id} - {x} == ids - {x} - {id};
    }
  }

  /** The objects that are not mapped yet. */
  ghost function Left(g: Graph, s: State): set<U64> {
    g.Keys - s.objects.Keys
  }

  /** The records of the log if all objects of the graph are mapped. */
  ghost function Bill(g: Graph, s: State): nat {
    Owed(s) + |Left(g, s)| * MAP_ENTRY_SIZE
  }

  /** The heap if all objects of the graph are written. */
  ghost function HeapBill(g: Graph, s: State): nat {
    s.heapEnd + HeapBytes(g, Left(g, s))
  }

  /** Where the heap starts at most, with `bytes` of records more. */
  ghost function HighestStart(g: Graph, s: State, heapStart: nat, bytes: nat): nat {
    var records := Bill(g, s) + bytes;
    if heapStart < 2 * records then 2 * records else heapStart
  }

  /** A file of this size is large enough for all objects of the graph and `bytes` of records more. */
  ghost function Room(g: Graph, s: State, heapStart: nat, bytes: nat): nat {
    HighestStart(g, s, heapStart, bytes) + HeapBill(g, s)
  }

  /** From `s` to `s'` no more than `bytes` of records have been added, besides what the graph may take. */
  ghost predicate Spent(g: Graph, s: State, heapStart: nat, s': State, heapStart': nat, bytes: nat) {
    && Bill(g, s') <= Bill(g, s) + bytes && HeapBill(g, s') <= HeapBill(g, s)
    && heapStart' <= HighestStart(g, s, heapStart, bytes)
  }

  lemma NothingSpent(g: Graph, s: State, heapStart: nat)
    ensures Spent(g, s, heapStart, s, heapStart, 0)
  {
    hide Bill, HeapBill;
  }

  lemma SpentFurther(g: Graph, s: State, h: nat, s1: State, h1: nat, s2: State, h2: nat, bytes: nat, more: nat)
    requires Spent(g, s, h, s1, h1, bytes) && Spent(g, s1, h1, s2, h2, more)
    ensures Spent(g, s, h, s2, h2, bytes + more)
  {
    hide Bill, HeapBill;
  }

  /** What is room enough in the middle is room enough at the start. */
  lemma RoomFromStart(g: Graph, s: State, h: nat, s1: State, h1: nat, bytes: nat, more: nat)
    requires Spent(g, s, h, s1, h1, bytes)
    ensures Room(g, s1, h1, more) <= Room(g, s, h, bytes + more)
  {
    hide Bill, HeapBill;
  }

  lemma MoreRoom(g: Graph, s: State, heapStart: nat, bytes: nat, bytes': nat)
    requires bytes <= bytes'
    ensures Room(g, s, heapStart, bytes) <= Room(g, s, heapStart, bytes')
  {
    hide Bill, HeapBill;
  }

  lemma SameRecords(s: State, s': State)
    requires s'.committed == s.committed && s'.pending == s.pending
    ensures RecordsEnd(s') == RecordsEnd(s)
  {
  }

  lemma OneEntryMore(m: map<U64, U64>, id: U64, offset: U64)
    requires id !in m
    ensures m[id := offset].Keys == m.Keys + {id} && |m[id := offset]| == |m| + 1
  {
    var m' := m[id := offset];
    assert m'.Keys == m.Keys + {id};
    assert |m'| == |m'.Keys| && |m| == |m.Keys|;
  }

  lemma OneLeftLess(all: set<U64>, known: set<U64>, id: U64)
    requires id in all && id !in known
    ensures all - (known + {id}) == all - known - {id} && id in all - known
    ensures |all - known| == |all - (known + {id})| + 1
  {
    assert all - (known + {id}) == all - known - {id};
  }

  /** Mapping an object is paid for. */
  lemma MappedPaid(g: Graph, s: State, s': State, id: U64, offset: U64)
    requires id in g && id !in s.objects && s'.objects == s.objects[id := offset]
    requires s'.committed == s.committed && s'.pending == s.pending
    ensures Bill(g, s') == Bill(g, s)
    ensures HeapBytes(g, Left(g, s')) + CostOf(g, id) == HeapBytes(g, Left(g, s))
  {
    hide RecordsEnd, HeapBytes, CostOf;
    SameRecords(s, s');
    OneEntryMore(s.objects, id, offset);
    OneLeftLess(g.Keys, s.objects.Keys, id);
    HeapBytesWithout(g, Left(g, s), id);
  }

  lemma VisitPaid(g: Graph, s: State, it: Item, limit: Option<nat>)
    requires it.id in g
    ensures Bill(g, Visit(g, s, it, limit)) <= Bill(g, s) && HeapBill(g, Visit(g, s, it, limit)) <= HeapBill(g, s)
  {
    hide EncRec, FullRec, LimitRec, ObjectHash, Bill, HeapBytes, Left, IsMagic, IsLeaf, Unreadable;
    var s' := Visit(g, s, it, limit);
    if it.id !in s.objects && !Unreadable(g[it.id]) {
      MappedPaid(g, s, s', it.id, s'.objects[it.id]);
    }
  }

  lemma {:induction false} WalkPaid(g: Graph, w: Walk, limit: Option<nat>, n: nat, heapStart: nat)
    ensures Spent(g, w.s, heapStart, Iterate(g, w, limit, n).s, heapStart, 0)
  {
    hide Bill, HeapBill, Visit, Added, Hits;
    if n > 0 {
      WalkPaid(g, w, limit, n - 1, heapStart);
      var before := Iterate(g, w, limit, n - 1);
      if before.queue != [] && before.queue[0].id in g {
        VisitPaid(g, before.s, before.queue[0], limit);
      }
    }
  }

  /** A call for records asks for no more than there is room for. */
  lemma RecordsFit(g: Graph, img: seq<Byte>, c: Counters, snaps: seq<Snap>, s: State, op: Op, bytes: nat)
    requires Inv(img, c, snaps, s) && NeedsSpace(op) && !op.Write?
    requires RecordsEnd(s) + RecordBytes(s, op) <= Bill(g, s) + bytes
    ensures Needed(c, s, op) <= Room(g, s, c.heapStart, bytes)
    ensures c.writeOffset == RecordsEnd(s)
  {
    hide Inv, RecordsEnd, RecordBytes, Bill, HeapBytes;
    WritesAtEnd(img, c, snaps, s);
    HeapStartBound(c.heapStart, c.writeOffset + RecordBytes(s, op));
  }

  /** So does a call for the record of an object that is not mapped yet. */
  lemma ObjectFits(g: Graph, img: seq<Byte>, c: Counters, snaps: seq<Snap>, s: State, id: U64, rec: Rec)
    requires Inv(img, c, snaps, s) && id in g && id !in s.objects && |EncRec(rec)| <= CostOf(g, id)
    ensures Needed(c, s, Write(rec)) <= Room(g, s, c.heapStart, 0)
  {
    hide Inv, RecordsEnd, EncRec, CostOf, HeapBytes, Bill;
    WritesAtEnd(img, c, snaps, s);
    assert id in Left(g, s);
    HeapBytesWithout(g, Left(g, s), id);
  }

  /** What a call that succeeded leaves: the heap has moved no farther than its records need. */
  lemma CallSpends(g: Graph, img: seq<Byte>, c: Counters, snaps: seq<Snap>, s: State, op: Op, s': State,
                   heapStart': nat, bytes: nat)
    requires Inv(img, c, snaps, s) && Bill(g, s') <= Bill(g, s) + bytes && HeapBill(g, s') <= HeapBill(g, s)
    requires heapStart' == c.heapStart || heapStart' < 2 * (c.writeOffset + RecordBytes(s, op))
    requires RecordsEnd(s) + RecordBytes(s, op) <= Bill(g, s) + bytes
    ensures Spent(g, s, c.heapStart, s', heapStart', bytes)
  {
    hide Inv, RecordsEnd, RecordBytes, Bill, HeapBill;
    WritesAtEnd(img, c, snaps, s);
  }
}
