/**
 * The walk over the object graph as a function of the log: a queue of objects with their depths, one
 * record and two table entries per object, and what the tables and the heap hold when it ends.
 */
module Walk {
  import opened Bytes
  import opened Format
  import opened Log
  import opened Reading
  import opened Identity
  import opened Objects

  datatype Item = Item(id: U64, depth: nat)

  /** A walk under way, with the depth at which each object was first processed. */
  datatype Walk = Walk(s: State, queue: seq<Item>, hit: bool, depthOf: map<U64, nat>)

  predicate Within(limit: Option<nat>, depth: nat) {
    limit.Some? ==> depth <= limit.value
  }

  predicate AtLimit(limit: Option<nat>, depth: nat) {
    limit.Some? && depth >= limit.value
  }

  predicate CacheHit(s: State, id: U64, hash: Option<U64>) {
    hash.Some? && id in s.cache && s.cache[id].identityHash == hash.value && s.cache[id].offset != 0
  }

  /** A record at the end of the heap, entered in the object map and, under its hash, in the cache. */
  function Recorded(s: State, id: U64, rec: Rec, hash: Option<U64>): State {
    var offset: U64 := s.heapEnd % TWO_64;
    s.(heap := s.heap[s.heapEnd := rec],
       heapEnd := s.heapEnd + |EncRec(rec)|,
       objects := s.objects[id := offset],
       cache := if hash.Some? then s.cache[id := CacheEntry(offset, hash.value)] else s.cache)
  }

  /** A record from an earlier snapshot serves if the hash has not changed. */
  function Saved(s: State, id: U64, rec: Rec, hash: Option<U64>): State {
    if CacheHit(s, id, hash) then s.(objects := s.objects[id := s.cache[id].offset]) else Recorded(s, id, rec, hash)
  }

  function Queued(ids: seq<U64>, depth: nat): (items: seq<Item>)
    ensures |items| == |ids| && forall i :: 0 <= i < |ids| ==> items[i] == Item(ids[i], depth)
  {
    seq(|ids|, i requires 0 <= i < |ids| => Item(ids[i], depth))
  }

  /** The log after one object of the queue. */
  function Visit(g: Graph, s: State, it: Item, limit: Option<nat>): State
    requires it.id in g
  {
    var o := g[it.id];
    if it.id in s.objects || Unreadable(o) then s
    else if IsMagic(o) then s.(objects := s.objects[it.id := MagicOffset(o)])
    else if !IsLeaf(o) && AtLimit(limit, it.depth) then Recorded(s, it.id, LimitRec(o), None)
    else Saved(s, it.id, FullRec(o), ObjectHash(o))
  }

  function Added(g: Graph, s: State, it: Item, limit: Option<nat>): seq<Item>
    requires it.id in g
  {
    if it.id in s.objects || IsLeaf(g[it.id]) || AtLimit(limit, it.depth) then []
    else Queued(Children(g[it.id]), it.depth + 1)
  }

  predicate Hits(g: Graph, s: State, it: Item, limit: Option<nat>)
    requires it.id in g
  {
    it.id !in s.objects && !IsLeaf(g[it.id]) && AtLimit(limit, it.depth)
  }

  function Next(g: Graph, w: Walk, limit: Option<nat>): Walk
    requires w.queue != [] && w.queue[0].id in g
  {
    var it := w.queue[0];
    Walk(Visit(g, w.s, it, limit),
         w.queue[1..] + Added(g, w.s, it, limit),
         w.hit || Hits(g, w.s, it, limit),
         if it.id in w.s.objects || Unreadable(g[it.id]) then w.depthOf else w.depthOf[it.id := it.depth])
  }

  // ------------------------------------------------------------------
  // Tables: every record has one owner
  // ------------------------------------------------------------------

  /**
   * Offsets in the tables are magic or start a record, and no record serves two objects: not two of
   * the object map, not two of the cache, and not one of each.
   */
  ghost predicate Owned(s: State) {
    && s.heapEnd <= MAX_FILE_SIZE
    && (forall off :: off in s.heap ==> off < s.heapEnd)
    && (forall id :: id in s.objects ==> IsMagicOffset(s.objects[id]) || s.objects[id] in s.heap)
    && (forall id :: id in s.cache ==> s.cache[id].offset in s.heap)
    && (forall a, b :: a in s.objects && b in s.objects && s.objects[a] == s.objects[b] && s.objects[a] in s.heap ==>
        a == b)
    && (forall a, b :: a in s.cache && b in s.cache && s.cache[a].offset == s.cache[b].offset ==> a == b)
    && (forall a, b :: a in s.objects && b in s.cache && s.objects[a] == s.cache[b].offset ==> a == b)
  }

  /** The cached record of an object whose hash has not changed still describes it. */
  ghost predicate Faithful(g: Graph, s: State) {
    forall id :: id in g && !IsMagic(g[id]) && !Unreadable(g[id]) && CacheHit(s, id, ObjectHash(g[id])) ==>
      s.cache[id].offset in s.heap && SameButRepr(s.heap[s.cache[id].offset], FullRec(g[id]))
  }

  /** The blind spots of the hash: a long list with another element there keeps its old record. */
  lemma StaleRecordReused(g: Graph, s: State, o: PyObject, id: U64, j: nat, newItem: U64)
    requires o.body.SeqBody? && j < |o.body.items| && newItem != o.body.items[j]
    requires
      var times := TimesMixed(|Children(o)|, j);
      times == 0 || (times == 2 && newItem == Flipped(o.body.items[j]))
    requires id in g && g[id] == WithItem(o, j, newItem) && id !in s.objects
    requires id in s.cache && s.cache[id].offset != 0 && Some(s.cache[id].identityHash) == ObjectHash(o)
    requires s.cache[id].offset in s.heap && s.heap[s.cache[id].offset] == FullRec(o)
    ensures Visit(g, s, Item(id, 0), None).objects[id] == s.cache[id].offset && !Faithful(g, s)
  {
    hide IdentityHash, TimesMixed, Flipped;
    WithItemDiffers(o, j, newItem);
    ItemChangeNoticed(o, WithItem(o, j, newItem), j, newItem);
    assert CacheHit(s, id, ObjectHash(g[id]));
    assert FullRec(g[id]).ids[j] != FullRec(o).ids[j];
  }

  lemma SameAsItself(r: Rec)
    ensures SameButRepr(r, r)
  {
  }

  lemma RecNonEmpty(r: Rec)
    ensures |EncRec(r)| > 0
  {
  }

  lemma RecordedOwned(s: State, id: U64, rec: Rec, hash: Option<U64>)
    requires Owned(s) && s.heapEnd + |EncRec(rec)| <= MAX_FILE_SIZE && id !in s.objects
    ensures Owned(Recorded(s, id, rec, hash))
  {
    hide EncRec;
    RecNonEmpty(rec);
  }

  /** A visit adds at most the entry of the object visited. */
  lemma VisitEnters(g: Graph, s: State, it: Item, limit: Option<nat>)
    requires it.id in g
    ensures
      var s' := Visit(g, s, it, limit);
      && s'.objects.Keys ==
         (if it.id in s.objects || Unreadable(g[it.id]) then s.objects.Keys else s.objects.Keys + {it.id})
      && forall id :: id in s.objects ==> id in s'.objects && s'.objects[id] == s.objects[id]
  {
    hide EncRec, FullRec, LimitRec, ObjectHash;
  }

  lemma VisitKeepsOwned(g: Graph, s: State, it: Item, limit: Option<nat>)
    requires Owned(s) && it.id in g && Visit(g, s, it, limit).heapEnd <= MAX_FILE_SIZE
    ensures Owned(Visit(g, s, it, limit))
    ensures forall off :: off in s.heap ==>
      off in Visit(g, s, it, limit).heap && Visit(g, s, it, limit).heap[off] == s.heap[off]
  {
    hide EncRec, FullRec, LimitRec, ObjectHash, Recorded, Owned;
    var o := g[it.id];
    if it.id in s.objects || Unreadable(o) {
    } else if IsMagic(o) {
      MagicOwned(s, it.id, MagicOffset(o));
    } else if !IsLeaf(o) && AtLimit(limit, it.depth) {
      RecordedGrows(s, it.id, LimitRec(o), None);
      RecordedOwned(s, it.id, LimitRec(o), None);
    } else if CacheHit(s, it.id, ObjectHash(o)) {
      ReusedOwned(s, it.id);
    } else {
      RecordedGrows(s, it.id, FullRec(o), ObjectHash(o));
      RecordedOwned(s, it.id, FullRec(o), ObjectHash(o));
    }
  }

  lemma MagicOwned(s: State, id: U64, offset: U64)
    requires Owned(s) && id !in s.objects && IsMagicOffset(offset)
    ensures Owned(s.(objects := s.objects[id := offset]))
  {
  }

  lemma ReusedOwned(s: State, id: U64)
    requires Owned(s) && id !in s.objects && id in s.cache
    ensures Owned(s.(objects := s.objects[id := s.cache[id].offset]))
  {
  }

  lemma RecordedGrows(s: State, id: U64, rec: Rec, hash: Option<U64>)
    ensures Recorded(s, id, rec, hash).heapEnd == s.heapEnd + |EncRec(rec)|
    ensures Owned(s) ==> forall off :: off in s.heap ==>
      off in Recorded(s, id, rec, hash).heap && Recorded(s, id, rec, hash).heap[off] == s.heap[off]
  {
  }

  // ------------------------------------------------------------------
  // Tables: every entry describes its object
  // ------------------------------------------------------------------

  /** The entry of an object is its singleton, its full record, or its repr alone. */
  ghost predicate Describes(g: Graph, s: State, id: U64, full: bool)
    requires id in g && id in s.objects
  {
    var o := g[id];
    !Unreadable(o)
    && if IsMagic(o) then s.objects[id] == MagicOffset(o)
       else
         && s.objects[id] in s.heap
         && if full then SameButRepr(s.heap[s.objects[id]], FullRec(o)) else s.heap[s.objects[id]] == LimitRec(o)
  }

  lemma VisitDescribes(g: Graph, s: State, it: Item, limit: Option<nat>)
    requires Owned(s) && Faithful(g, s) && it.id in g && it.id !in s.objects && !Unreadable(g[it.id])
    requires Visit(g, s, it, limit).heapEnd <= MAX_FILE_SIZE
    ensures it.id in Visit(g, s, it, limit).objects
    ensures Describes(g, Visit(g, s, it, limit), it.id, IsLeaf(g[it.id]) || !AtLimit(limit, it.depth))
  {
    hide EncRec, FullRec, LimitRec, ObjectHash, SameButRepr, Recorded, Unreadable;
    var o := g[it.id];
    if !IsMagic(o) {
      SameAsItself(FullRec(o));
      if !IsLeaf(o) && AtLimit(limit, it.depth) {
        RecordedThere(s, it.id, LimitRec(o), None);
      } else if !CacheHit(s, it.id, ObjectHash(o)) {
        RecordedThere(s, it.id, FullRec(o), ObjectHash(o));
      }
    }
  }

  lemma RecordedThere(s: State, id: U64, rec: Rec, hash: Option<U64>)
    requires Owned(s) && Recorded(s, id, rec, hash).heapEnd <= MAX_FILE_SIZE
    ensures
      var s' := Recorded(s, id, rec, hash);
      id in s'.objects && s'.objects[id] in s'.heap && s'.heap[s'.objects[id]] == rec
  {
    hide EncRec;
  }

  lemma VisitKeepsOthers(g: Graph, s: State, it: Item, limit: Option<nat>, id: U64, full: bool)
    requires Owned(s) && it.id in g && id in g && id in s.objects && Describes(g, s, id, full)
    requires Visit(g, s, it, limit).heapEnd <= MAX_FILE_SIZE
    ensures id in Visit(g, s, it, limit).objects && Visit(g, s, it, limit).objects[id] == s.objects[id]
    ensures Describes(g, Visit(g, s, it, limit), id, full)
  {
    hide EncRec, FullRec, LimitRec, ObjectHash, SameButRepr, Visit, Owned;
    VisitKeepsOwned(g, s, it, limit);
    VisitEnters(g, s, it, limit);
  }

  lemma RecordedFaithful(g: Graph, s: State, id: U64, rec: Rec, hash: Option<U64>)
    requires Owned(s) && Faithful(g, s) && id in g
    requires hash.Some? ==> !IsMagic(g[id]) && !Unreadable(g[id]) && rec == FullRec(g[id])
    ensures Faithful(g, Recorded(s, id, rec, hash))
  {
    hide EncRec, FullRec, LimitRec, ObjectHash, SameButRepr;
    SameAsItself(rec);
  }

  lemma VisitKeepsFaithful(g: Graph, s: State, it: Item, limit: Option<nat>)
    requires Owned(s) && Faithful(g, s) && it.id in g
    ensures Faithful(g, Visit(g, s, it, limit))
  {
    hide EncRec, FullRec, LimitRec, ObjectHash, SameButRepr, Owned, Recorded;
    var o := g[it.id];
    if it.id !in s.objects && !Unreadable(o) && !IsMagic(o) {
      if !IsLeaf(o) && AtLimit(limit, it.depth) {
        RecordedFaithful(g, s, it.id, LimitRec(o), None);
      } else if !CacheHit(s, it.id, ObjectHash(o)) {
        RecordedFaithful(g, s, it.id, FullRec(o), ObjectHash(o));
      }
    }
  }

  /** Every entry of the object map describes its object, in full or as its repr. */
  ghost predicate AllDescribed(g: Graph, s: State) {
    forall id :: id in s.objects ==>
      id in g && (Describes(g, s, id, true) || (!IsLeaf(g[id]) && Describes(g, s, id, false)))
  }

  lemma VisitKeepsDescribed(g: Graph, s: State, it: Item, limit: Option<nat>)
    requires Owned(s) && Faithful(g, s) && AllDescribed(g, s) && it.id in g
    requires Visit(g, s, it, limit).heapEnd <= MAX_FILE_SIZE
    ensures AllDescribed(g, Visit(g, s, it, limit))
  {
    hide Owned, Faithful, Visit, Describes;
    var s' := Visit(g, s, it, limit);
    VisitEnters(g, s, it, limit);
    forall id | id in s'.objects
      ensures id in g && (Describes(g, s', id, true) || (!IsLeaf(g[id]) && Describes(g, s', id, false)))
    {
      if id in s.objects {
        VisitKeepsOthers(g, s, it, limit, id, Describes(g, s, id, true));
      } else {
        VisitDescribes(g, s, it, limit);
      }
    }
  }

  // ------------------------------------------------------------------
  // Closure: no reference of a recorded object dangles
  // ------------------------------------------------------------------

  ghost predicate InQueue(queue: seq<Item>, id: U64) {
    exists i :: 0 <= i < |queue| && queue[i].id == id
  }

  /** The references of the record at an offset are recorded, unreadable, or still to be processed. */
  ghost predicate Covered(g: Graph, s: State, queue: seq<Item>, offset: U64) {
    offset in s.heap ==>
      forall c :: c in RecChildren(s.heap[offset]) ==>
        c in g && (c in s.objects || Unreadable(g[c]) || InQueue(queue, c))
  }

  ghost predicate Closed(g: Graph, s: State, queue: seq<Item>) {
    && (forall i :: 0 <= i < |queue| ==> queue[i].id in g)
    && (forall id :: id in s.objects ==> Covered(g, s, queue, s.objects[id]))
  }

  lemma SameChildren(r: Rec, r': Rec)
    requires SameButRepr(r, r')
    ensures RecChildren(r) == RecChildren(r')
  {
  }

  lemma NextKeepsClosed(g: Graph, w: Walk, limit: Option<nat>)
    requires ClosedGraph(g) && Owned(w.s) && Faithful(g, w.s) && Closed(g, w.s, w.queue) && w.queue != []
    requires Next(g, w, limit).s.heapEnd <= MAX_FILE_SIZE
    ensures Closed(g, Next(g, w, limit).s, Next(g, w, limit).queue)
  {
    hide EncRec, FullRec, LimitRec, ObjectHash, SameButRepr, RecChildren, Covered, Visit, Added, Owned;
    var it, s, n := w.queue[0], w.s, Next(g, w, limit);
    AddedInGraph(g, w.s, it, limit);
    forall i | 0 <= i < |n.queue| ensures n.queue[i].id in g {
      if i >= |w.queue| - 1 {
        assert n.queue[i] == Added(g, s, it, limit)[i - (|w.queue| - 1)];
      }
    }
    forall id | id in n.s.objects ensures Covered(g, n.s, n.queue, n.s.objects[id]) {
      if id in s.objects {
        StillCovered(g, w, limit, id);
      } else {
        NewlyCovered(g, w, limit, id);
      }
    }
  }

  lemma AddedInGraph(g: Graph, s: State, it: Item, limit: Option<nat>)
    requires ClosedGraph(g) && it.id in g
    ensures forall i :: 0 <= i < |Added(g, s, it, limit)| ==> Added(g, s, it, limit)[i].id in g
  {
    var o := g[it.id];
    forall i | 0 <= i < |Added(g, s, it, limit)| ensures Added(g, s, it, limit)[i].id in g {
      assert Added(g, s, it, limit)[i].id == Children(o)[i];
      assert Children(o)[i] in Children(o);
    }
  }

  /** Processing an object takes no other out of the queue, and that one becomes recorded. */
  lemma StillAwaited(g: Graph, w: Walk, limit: Option<nat>, c: U64)
    requires w.queue != [] && w.queue[0].id in g && c in g
    requires c in w.s.objects || Unreadable(g[c]) || InQueue(w.queue, c)
    ensures c in Next(g, w, limit).s.objects || Unreadable(g[c]) || InQueue(Next(g, w, limit).queue, c)
  {
    hide EncRec, FullRec, LimitRec, ObjectHash, Added;
    if c !in w.s.objects && !Unreadable(g[c]) && c != w.queue[0].id {
      var i :| 0 <= i < |w.queue| && w.queue[i].id == c;
      assert Next(g, w, limit).queue[i - 1] == w.queue[i];
    }
  }

  lemma StillCovered(g: Graph, w: Walk, limit: Option<nat>, id: U64)
    requires Owned(w.s) && Closed(g, w.s, w.queue) && w.queue != [] && id in w.s.objects
    requires Next(g, w, limit).s.heapEnd <= MAX_FILE_SIZE
    ensures id in Next(g, w, limit).s.objects
    ensures Covered(g, Next(g, w, limit).s, Next(g, w, limit).queue, Next(g, w, limit).s.objects[id])
  {
    hide EncRec, FullRec, LimitRec, ObjectHash, RecChildren, Added, InQueue;
    var n, off := Next(g, w, limit), w.s.objects[id];
    VisitKeepsOwned(g, w.s, w.queue[0], limit);
    assert n.s.objects[id] == off;
    assert Covered(g, w.s, w.queue, off);
    if off in n.s.heap {
      assert IsMagicOffset(off) || off in w.s.heap;
      if off in w.s.heap {
        forall c | c in RecChildren(n.s.heap[off])
          ensures c in g && (c in n.s.objects || Unreadable(g[c]) || InQueue(n.queue, c))
        {
          StillAwaited(g, w, limit, c);
        }
      }
    }
  }

  lemma NewlyCovered(g: Graph, w: Walk, limit: Option<nat>, id: U64)
    requires ClosedGraph(g) && Owned(w.s) && Faithful(g, w.s) && w.queue != [] && w.queue[0].id in g
    requires Next(g, w, limit).s.heapEnd <= MAX_FILE_SIZE
    requires id in Next(g, w, limit).s.objects && id !in w.s.objects
    ensures Covered(g, Next(g, w, limit).s, Next(g, w, limit).queue, Next(g, w, limit).s.objects[id])
  {
    hide EncRec, FullRec, LimitRec, ObjectHash, SameButRepr, RecChildren, Children, Visit, Added, Faithful, IsMagic,
         ClosedGraph, InQueue;
    var it, n, o := w.queue[0], Next(g, w, limit), g[w.queue[0].id];
    VisitEnters(g, w.s, it, limit);
    assert id == it.id;
    VisitDescribes(g, w.s, it, limit);
    VisitKeepsOwned(g, w.s, it, limit);
    if !IsMagic(o) {
      RecordKeepsChildren(o);
      var rec := n.s.heap[n.s.objects[id]];
      if IsLeaf(o) || !AtLimit(limit, it.depth) {
        SameChildren(rec, FullRec(o));
        NewChildrenQueued(g, w, limit);
      }
    }
  }

  lemma NewChildrenQueued(g: Graph, w: Walk, limit: Option<nat>)
    requires ClosedGraph(g) && w.queue != [] && w.queue[0].id in g && w.queue[0].id !in w.s.objects
    requires IsLeaf(g[w.queue[0].id]) || !AtLimit(limit, w.queue[0].depth)
    ensures forall c :: c in Children(g[w.queue[0].id]) ==> c in g && InQueue(Next(g, w, limit).queue, c)
  {
    hide Children, Visit;
    var it, n := w.queue[0], Next(g, w, limit);
    var children := Children(g[it.id]);
    ChildrenOfLeaf(g[it.id]);
    forall c | c in children ensures c in g && InQueue(n.queue, c) {
      var i :| 0 <= i < |children| && children[i] == c;
      assert n.queue[|w.queue| - 1 + i] == Item(c, it.depth + 1);
    }
  }

  lemma ChildrenOfLeaf(o: PyObject)
    ensures IsLeaf(o) ==> Children(o) == []
  {
  }

  // ------------------------------------------------------------------
  // Breadth first: every object is first processed at its distance from the roots
  // ------------------------------------------------------------------

  ghost predicate Waiting(queue: seq<Item>, id: U64, depth: nat) {
    exists i :: 0 <= i < |queue| && queue[i].id == id && queue[i].depth <= depth
  }

  ghost predicate Reached(g: Graph, w: Walk, id: U64, depth: nat)
    requires id in g
  {
    id in w.depthOf || Unreadable(g[id]) || Waiting(w.queue, id, depth)
  }

  /** The queue is sorted by depth, and never spans more than two depths. */
  ghost predicate QueueOk(g: Graph, roots: set<U64>, limit: Option<nat>, queue: seq<Item>) {
    && (forall i :: 0 <= i < |queue| ==> InLevel(g, roots, limit, queue[i]))
    && (forall i, j :: 0 <= i < j < |queue| ==> queue[i].depth <= queue[j].depth <= queue[i].depth + 1)
  }

  ghost predicate InLevel(g: Graph, roots: set<U64>, limit: Option<nat>, it: Item) {
    it.id in g && it.id in Level(g, roots, it.depth) && Within(limit, it.depth)
  }

  ghost predicate DepthsOk(g: Graph, roots: set<U64>, limit: Option<nat>, w: Walk) {
    && w.s.objects.Keys == w.depthOf.Keys
    && (forall id :: id in w.depthOf ==>
        id in g && AtDistance(g, roots, id, w.depthOf[id]) && Within(limit, w.depthOf[id]))
    && (forall id, i :: id in w.depthOf && 0 <= i < |w.queue| ==> w.depthOf[id] <= w.queue[i].depth)
  }

  ghost predicate Spread(g: Graph, roots: set<U64>, limit: Option<nat>, w: Walk) {
    && (forall r :: r in roots ==> r in g && Reached(g, w, r, 0))
    && (forall x :: x in w.depthOf && x in g && !AtLimit(limit, w.depthOf[x]) ==> ChildrenReached(g, w, x))
  }

  ghost predicate ChildrenReached(g: Graph, w: Walk, x: U64)
    requires x in w.depthOf && x in g
  {
    forall c :: c in Children(g[x]) ==> c in g && Reached(g, w, c, w.depthOf[x] + 1)
  }

  ghost predicate HitOk(g: Graph, limit: Option<nat>, w: Walk) {
    w.hit <==> exists x :: x in w.depthOf && x in g && !IsLeaf(g[x]) && AtLimit(limit, w.depthOf[x])
  }

  ghost predicate EntriesOk(g: Graph, limit: Option<nat>, w: Walk) {
    forall id :: id in w.depthOf && id in g ==>
      id in w.s.objects && Describes(g, w.s, id, IsLeaf(g[id]) || !AtLimit(limit, w.depthOf[id]))
  }

  ghost predicate WalkOk(g: Graph, roots: set<U64>, limit: Option<nat>, w: Walk) {
    && QueueOk(g, roots, limit, w.queue) && DepthsOk(g, roots, limit, w) && Spread(g, roots, limit, w)
    && HitOk(g, limit, w) && EntriesOk(g, limit, w)
  }

  /** Whatever is nearer than the front of the queue has been processed. */
  lemma {:induction false} NearerDone(g: Graph, roots: set<U64>, limit: Option<nat>, w: Walk, id: U64, k: nat)
    requires ClosedGraph(g) && QueueOk(g, roots, limit, w.queue) && DepthsOk(g, roots, limit, w)
    requires Spread(g, roots, limit, w)
    requires id in Level(g, roots, k) && Within(limit, k)
    ensures id in g
    ensures id in w.depthOf || Unreadable(g[id]) || (w.queue != [] && w.queue[0].depth <= k)
    decreases k
  {
    hide Children, Level;
    var x := LastStep(g, roots, id, k);
    if k == 0 {
      assert Reached(g, w, id, 0);
    } else if id in Level(g, roots, k - 1) {
      NearerDone(g, roots, limit, w, id, k - 1);
    } else {
      NearerDone(g, roots, limit, w, x, k - 1);
      if x in w.depthOf {
        NoFartherThan(g, roots, x, w.depthOf[x], k - 1);
        assert ChildrenReached(g, w, x);
      } else if Unreadable(g[x]) {
        ChildrenOfLeaf(g[x]);
      }
    }
  }

  lemma NoFartherThan(g: Graph, roots: set<U64>, id: U64, d: nat, k: nat)
    requires AtDistance(g, roots, id, d) && id in Level(g, roots, k)
    ensures d <= k
  {
    hide Level;
    if k < d {
      LevelGrows(g, roots, k, d - 1);
    }
  }

  lemma NextDistance(g: Graph, roots: set<U64>, limit: Option<nat>, w: Walk)
    requires ClosedGraph(g) && QueueOk(g, roots, limit, w.queue) && DepthsOk(g, roots, limit, w)
    requires Spread(g, roots, limit, w)
    requires w.queue != []
    ensures
      var it := w.queue[0];
      InLevel(g, roots, limit, it)
        && (it.id in w.depthOf || Unreadable(g[it.id]) || AtDistance(g, roots, it.id, it.depth))
  {
    hide Level, Spread;
    var it := w.queue[0];
    assert InLevel(g, roots, limit, it);
    if it.id !in w.depthOf && !Unreadable(g[it.id]) && it.depth > 0 && it.id in Level(g, roots, it.depth - 1) {
      NearerDone(g, roots, limit, w, it.id, it.depth - 1);
    }
  }

  /** What is in the queue after a step: what was there, then the children of the object processed. */
  lemma NextItem(g: Graph, roots: set<U64>, limit: Option<nat>, w: Walk, i: nat)
    requires ClosedGraph(g) && w.queue != [] && InLevel(g, roots, limit, w.queue[0]) && i < |Next(g, w, limit).queue|
    ensures
      var it := Next(g, w, limit).queue[i];
      if i < |w.queue| - 1 then it == w.queue[i + 1]
        else it.depth == w.queue[0].depth + 1 && InLevel(g, roots, limit, it)
  {
    hide Level, Children, Visit;
    var it, n := w.queue[0], |w.queue| - 1;
    if i >= n {
      var c := Children(g[it.id])[i - n];
      assert Next(g, w, limit).queue[i] == Added(g, w.s, it, limit)[i - n] == Item(c, it.depth + 1);
      assert c in Children(g[it.id]);
      ChildLevel(g, roots, it.id, c, it.depth);
    }
  }

  lemma NextKeepsQueue(g: Graph, roots: set<U64>, limit: Option<nat>, w: Walk)
    requires ClosedGraph(g) && QueueOk(g, roots, limit, w.queue) && w.queue != []
    ensures w.queue[0].id in g && QueueOk(g, roots, limit, Next(g, w, limit).queue)
  {
    hide Next, InLevel;
    var it := w.queue[0];
    assert InLevel(g, roots, limit, it);
    InLevelInGraph(g, roots, limit, it);
    var queue := Next(g, w, limit).queue;
    forall i | 0 <= i < |queue| ensures InLevel(g, roots, limit, queue[i]) && it.depth <= queue[i].depth <= it.depth + 1
    {
      NextItem(g, roots, limit, w, i);
      assert i < |w.queue| - 1 ==> InLevel(g, roots, limit, w.queue[i + 1]);
    }
    forall i, j | 0 <= i < j < |queue| ensures queue[i].depth <= queue[j].depth <= queue[i].depth + 1 {
      NextItem(g, roots, limit, w, i);
      NextItem(g, roots, limit, w, j);
    }
  }

  lemma InLevelInGraph(g: Graph, roots: set<U64>, limit: Option<nat>, it: Item)
    requires InLevel(g, roots, limit, it)
    ensures it.id in g
  {
  }

  lemma ChildLevel(g: Graph, roots: set<U64>, x: U64, c: U64, k: nat)
    requires x in Level(g, roots, k) && x in g && c in Children(g[x])
    ensures c in Level(g, roots, k + 1)
  {
  }

  lemma NextKeepsDepths(g: Graph, roots: set<U64>, limit: Option<nat>, w: Walk)
    requires ClosedGraph(g) && QueueOk(g, roots, limit, w.queue) && DepthsOk(g, roots, limit, w)
    requires Spread(g, roots, limit, w)
    requires w.queue != []
    ensures w.queue[0].id in g && DepthsOk(g, roots, limit, Next(g, w, limit))
  {
    hide Level, Children, Spread, ClosedGraph, Visit, Added, AtDistance;
    NextDistance(g, roots, limit, w);
    var it, n := w.queue[0], Next(g, w, limit);
    VisitEnters(g, w.s, it, limit);
    forall id, i | id in n.depthOf && 0 <= i < |n.queue| ensures n.depthOf[id] <= n.queue[i].depth {
      NextItem(g, roots, limit, w, i);
    }
  }

  lemma StillReached(g: Graph, limit: Option<nat>, w: Walk, id: U64, depth: nat)
    requires w.queue != [] && w.queue[0].id in g && id in g && Reached(g, w, id, depth)
    requires w.s.objects.Keys == w.depthOf.Keys
    ensures Reached(g, Next(g, w, limit), id, depth)
  {
    hide Visit, Added;
    if id !in w.depthOf && !Unreadable(g[id]) && id != w.queue[0].id {
      var i :| 0 <= i < |w.queue| && w.queue[i].id == id && w.queue[i].depth <= depth;
      assert Next(g, w, limit).queue[i - 1] == w.queue[i];
    }
  }

  lemma NextKeepsSpread(g: Graph, roots: set<U64>, limit: Option<nat>, w: Walk)
    requires ClosedGraph(g) && Spread(g, roots, limit, w) && w.s.objects.Keys == w.depthOf.Keys
    requires w.queue != [] && w.queue[0].id in g
    ensures Spread(g, roots, limit, Next(g, w, limit))
  {
    hide Visit, Children, Reached;
    var it, n := w.queue[0], Next(g, w, limit);
    forall r | r in roots ensures r in g && Reached(g, n, r, 0) {
      StillReached(g, limit, w, r, 0);
    }
    forall x | x in n.depthOf && x in g && !AtLimit(limit, n.depthOf[x]) ensures ChildrenReached(g, n, x) {
      if x in w.depthOf {
        assert n.depthOf[x] == w.depthOf[x] && ChildrenReached(g, w, x);
        forall c | c in Children(g[x]) ensures c in g && Reached(g, n, c, n.depthOf[x] + 1) {
          StillReached(g, limit, w, c, w.depthOf[x] + 1);
        }
      } else {
        NewChildrenReached(g, limit, w);
      }
    }
  }

  lemma NewChildrenReached(g: Graph, limit: Option<nat>, w: Walk)
    requires ClosedGraph(g) && w.queue != [] && w.queue[0].id in g && w.s.objects.Keys == w.depthOf.Keys
    requires w.queue[0].id !in w.depthOf && w.queue[0].id in Next(g, w, limit).depthOf
    requires !AtLimit(limit, w.queue[0].depth)
    ensures ChildrenReached(g, Next(g, w, limit), w.queue[0].id)
  {
    hide Visit, Children;
    var it, n := w.queue[0], Next(g, w, limit);
    ChildrenOfLeaf(g[it.id]);
    forall c | c in Children(g[it.id]) ensures c in g && Reached(g, n, c, it.depth + 1) {
      var i :| 0 <= i < |Children(g[it.id])| && Children(g[it.id])[i] == c;
      assert n.queue[|w.queue| - 1 + i] == Item(c, it.depth + 1);
    }
  }

  lemma NextKeepsHit(g: Graph, limit: Option<nat>, w: Walk)
    requires HitOk(g, limit, w) && w.queue != [] && w.queue[0].id in g && w.s.objects.Keys == w.depthOf.Keys
    ensures HitOk(g, limit, Next(g, w, limit))
  {
    hide Visit, Added;
    var it, n := w.queue[0], Next(g, w, limit);
    if w.hit {
      var x :| x in w.depthOf && x in g && !IsLeaf(g[x]) && AtLimit(limit, w.depthOf[x]);
      assert x in n.depthOf && n.depthOf[x] == w.depthOf[x];
    } else if n.hit {
      assert n.depthOf[it.id] == it.depth;
    }
  }

  lemma NextKeepsEntries(g: Graph, roots: set<U64>, limit: Option<nat>, w: Walk)
    requires Owned(w.s) && Faithful(g, w.s) && DepthsOk(g, roots, limit, w) && EntriesOk(g, limit, w)
    requires w.queue != [] && w.queue[0].id in g && Next(g, w, limit).s.heapEnd <= MAX_FILE_SIZE
    ensures EntriesOk(g, limit, Next(g, w, limit))
  {
    hide Level, Owned, Faithful, Added, Visit, Describes;
    var it, n := w.queue[0], Next(g, w, limit);
    forall id | id in n.depthOf && id in g
      ensures id in n.s.objects && Describes(g, n.s, id, IsLeaf(g[id]) || !AtLimit(limit, n.depthOf[id]))
    {
      if id in w.depthOf {
        VisitKeepsOthers(g, w.s, it, limit, id, IsLeaf(g[id]) || !AtLimit(limit, w.depthOf[id]));
      } else {
        VisitDescribes(g, w.s, it, limit);
      }
    }
  }

  lemma NextKeepsWalk(g: Graph, roots: set<U64>, limit: Option<nat>, w: Walk)
    requires ClosedGraph(g) && Owned(w.s) && Faithful(g, w.s) && WalkOk(g, roots, limit, w)
    requires w.queue != [] && w.queue[0].id in g && Next(g, w, limit).s.heapEnd <= MAX_FILE_SIZE
    ensures WalkOk(g, roots, limit, Next(g, w, limit))
  {
    hide Owned, Faithful, QueueOk, Spread, HitOk, EntriesOk, Next;
    NextKeepsQueue(g, roots, limit, w);
    NextKeepsDepths(g, roots, limit, w);
    NextKeepsSpread(g, roots, limit, w);
    NextKeepsHit(g, limit, w);
    NextKeepsEntries(g, roots, limit, w);
  }

  /** Where a walk starts: nothing recorded yet, the roots in the queue at depth 0. */
  lemma WalkStarts(g: Graph, roots: set<U64>, limit: Option<nat>, w: Walk)
    requires w.s.objects == map[] && w.depthOf == map[] && !w.hit
    requires roots <= g.Keys
    requires forall i :: 0 <= i < |w.queue| ==> w.queue[i].depth == 0
    requires forall id :: id in roots <==> InQueue(w.queue, id)
    ensures WalkOk(g, roots, limit, w)
  {
    forall i | 0 <= i < |w.queue| ensures InLevel(g, roots, limit, w.queue[i]) {
      assert InQueue(w.queue, w.queue[i].id);
    }
  }

  /**
   * What a walk leaves behind: exactly the readable objects no farther than the limit, those nearer
   * (and every leaf) in full, those at the limit as their repr; and a flag for whether there are any.
   */
  ghost predicate Captured(g: Graph, roots: set<U64>, limit: Option<nat>, s: State, hit: bool) {
    && (forall id :: id in s.objects ==> id in g && exists d: nat :: AtDistance(g, roots, id, d))
    && (forall id, d: nat :: AtDistance(g, roots, id, d) ==>
        id in g && (id in s.objects <==> Within(limit, d) && !Unreadable(g[id])))
    && (forall id, d: nat :: id in s.objects && id in g && AtDistance(g, roots, id, d) ==>
          Describes(g, s, id, IsLeaf(g[id]) || !AtLimit(limit, d)))
    && (hit <==> exists id, d: nat :: AtDistance(g, roots, id, d) && id in g && limit == Some(d) && !IsLeaf(g[id]))
  }

  lemma WalkEnds(g: Graph, roots: set<U64>, limit: Option<nat>, w: Walk)
    requires ClosedGraph(g) && roots <= g.Keys && WalkOk(g, roots, limit, w) && w.queue == []
    ensures Captured(g, roots, limit, w.s, w.hit)
  {
    hide Level, Describes, Children, Spread, AtDistance;
    forall id, d: nat | AtDistance(g, roots, id, d)
      ensures id in g && (id in w.s.objects <==> Within(limit, d) && !Unreadable(g[id]))
      ensures id in w.s.objects ==> w.depthOf[id] == d
    {
      EndsAt(g, roots, limit, w, id, d);
    }
    forall id | id in w.s.objects ensures id in g && AtDistance(g, roots, id, w.depthOf[id]) {
    }
    if exists id, d: nat :: AtDistance(g, roots, id, d) && id in g && limit == Some(d) && !IsLeaf(g[id]) {
      var id, d: nat :| AtDistance(g, roots, id, d) && id in g && limit == Some(d) && !IsLeaf(g[id]);
      assert id in w.depthOf && w.depthOf[id] == d;
    }
    if w.hit {
      var x :| x in w.depthOf && x in g && !IsLeaf(g[x]) && AtLimit(limit, w.depthOf[x]);
      assert limit == Some(w.depthOf[x]) by {
        assert Within(limit, w.depthOf[x]);
      }
    }
  }

  lemma EndsAt(g: Graph, roots: set<U64>, limit: Option<nat>, w: Walk, id: U64, d: nat)
    requires ClosedGraph(g) && roots <= g.Keys && WalkOk(g, roots, limit, w) && w.queue == []
    requires AtDistance(g, roots, id, d)
    ensures id in g && (id in w.s.objects <==> Within(limit, d) && !Unreadable(g[id]))
    ensures id in w.s.objects ==> w.depthOf[id] == d
  {
    hide Level;
    LevelInGraph(g, roots, d, id);
    if Within(limit, d) {
      NearerDone(g, roots, limit, w, id, d);
    }
    if id in w.s.objects {
      DistanceUnique(g, roots, id, d, w.depthOf[id]);
    }
  }

  // ------------------------------------------------------------------
  // Whole walks
  // ------------------------------------------------------------------

  function Advance(g: Graph, w: Walk, limit: Option<nat>): Walk {
    if w.queue == [] || w.queue[0].id !in g then w else Next(g, w, limit)
  }

  ghost function Iterate(g: Graph, w: Walk, limit: Option<nat>, n: nat): Walk {
    if n == 0 then w else Advance(g, Iterate(g, w, limit, n - 1), limit)
  }

  lemma IterateNext(g: Graph, w: Walk, limit: Option<nat>, n: nat)
    ensures Iterate(g, w, limit, 0) == w
    ensures Iterate(g, w, limit, n + 1) == Advance(g, Iterate(g, w, limit, n), limit)
  {
  }

  lemma AdvanceGrows(g: Graph, w: Walk, limit: Option<nat>)
    ensures w.s.heapEnd <= Advance(g, w, limit).s.heapEnd
    ensures w.s.objects.Keys <= Advance(g, w, limit).s.objects.Keys
    ensures Advance(g, w, limit).s.pending == w.s.pending && Advance(g, w, limit).s.committed == w.s.committed
    ensures w.hit ==> Advance(g, w, limit).hit
  {
    hide EncRec, FullRec, LimitRec, ObjectHash, Added;
  }

  /** What a walk needs to start from and keeps all the way. */
  ghost predicate Sound(g: Graph, s: State) {
    Owned(s) && Faithful(g, s) && AllDescribed(g, s)
  }

  lemma AdvanceKeeps(g: Graph, roots: set<U64>, limit: Option<nat>, w: Walk)
    requires ClosedGraph(g) && Sound(g, w.s) && Advance(g, w, limit).s.heapEnd <= MAX_FILE_SIZE
    ensures Sound(g, Advance(g, w, limit).s)
    ensures Closed(g, w.s, w.queue) ==> Closed(g, Advance(g, w, limit).s, Advance(g, w, limit).queue)
    ensures WalkOk(g, roots, limit, w) ==> WalkOk(g, roots, limit, Advance(g, w, limit))
  {
    hide ClosedGraph, Owned, Faithful, AllDescribed, Closed, WalkOk, Visit, Added;
    if w.queue != [] && w.queue[0].id in g {
      VisitKeepsDescribed(g, w.s, w.queue[0], limit);
      VisitKeepsOwned(g, w.s, w.queue[0], limit);
      VisitKeepsFaithful(g, w.s, w.queue[0], limit);
      if Closed(g, w.s, w.queue) {
        NextKeepsClosed(g, w, limit);
      }
      if WalkOk(g, roots, limit, w) {
        NextKeepsWalk(g, roots, limit, w);
      }
    }
  }

  /** However many objects have been processed, the tables are sound, closed up to the queue, and by distance. */
  lemma {:induction false} IterateKeeps(g: Graph, roots: set<U64>, limit: Option<nat>, w: Walk, n: nat)
    requires ClosedGraph(g) && Sound(g, w.s) && Iterate(g, w, limit, n).s.heapEnd <= MAX_FILE_SIZE
    ensures Sound(g, Iterate(g, w, limit, n).s)
    ensures Closed(g, w.s, w.queue) ==> Closed(g, Iterate(g, w, limit, n).s, Iterate(g, w, limit, n).queue)
    ensures WalkOk(g, roots, limit, w) ==> WalkOk(g, roots, limit, Iterate(g, w, limit, n))
    ensures Iterate(g, w, limit, n).s.pending == w.s.pending && Iterate(g, w, limit, n).s.committed == w.s.committed
    ensures w.s.objects.Keys <= Iterate(g, w, limit, n).s.objects.Keys
    decreases n
  {
    hide ClosedGraph, Sound, Closed, WalkOk, Advance;
    if n > 0 {
      var before := Iterate(g, w, limit, n - 1);
      AdvanceGrows(g, before, limit);
      IterateKeeps(g, roots, limit, w, n - 1);
      AdvanceKeeps(g, roots, limit, before);
    }
  }

  /** Objects still to be recorded: a walk ends because every step lowers this or shortens the queue. */
  ghost function Unrecorded(g: Graph, s: State): nat {
    |g.Keys - s.objects.Keys|
  }

  lemma OneFewer(g: Graph, s: State, s': State, id: U64)
    requires id in g && id !in s.objects && s'.objects.Keys == s.objects.Keys + {id}
    ensures Unrecorded(g, s') < Unrecorded(g, s)
  {
    var before, after := g.Keys - s.objects.Keys, g.Keys - s'.objects.Keys;
    assert after == before - {id} && id in before;
  }

  lemma StepsDescend(g: Graph, w: Walk, limit: Option<nat>)
    requires w.queue != [] && w.queue[0].id in g
    ensures Unrecorded(g, Next(g, w, limit).s) < Unrecorded(g, w.s)
         || (Unrecorded(g, Next(g, w, limit).s) == Unrecorded(g, w.s) && |Next(g, w, limit).queue| < |w.queue|)
  {
    hide Visit, Unrecorded, Children;
    var it, n := w.queue[0], Next(g, w, limit);
    VisitEnters(g, w.s, it, limit);
    if it.id !in w.s.objects && !Unreadable(g[it.id]) {
      OneFewer(g, w.s, n.s, it.id);
    } else {
      assert Added(g, w.s, it, limit) == [];
      SameUnrecorded(g, w.s, n.s);
    }
  }

  lemma SameUnrecorded(g: Graph, s: State, s': State)
    requires s'.objects.Keys == s.objects.Keys
    ensures Unrecorded(g, s') == Unrecorded(g, s)
  {
  }

  /** Nothing queued is forgotten: once the queue is empty, everything that was in it has been dealt with. */
  lemma {:induction false} QueuedIsProcessed(g: Graph, limit: Option<nat>, w: Walk, n: nat, c: U64)
    requires c in g && (c in w.s.objects || Unreadable(g[c]) || InQueue(w.queue, c))
    ensures c in Iterate(g, w, limit, n).s.objects || Unreadable(g[c]) || InQueue(Iterate(g, w, limit, n).queue, c)
  {
    hide Next, Unreadable;
    if n > 0 {
      QueuedIsProcessed(g, limit, w, n - 1, c);
      var before := Iterate(g, w, limit, n - 1);
      if before.queue != [] && before.queue[0].id in g {
        StillAwaited(g, before, limit, c);
      }
    }
  }

  /** Every walk ends. */
  lemma WalkTerminates(g: Graph, w: Walk, limit: Option<nat>) returns (n: nat)
    requires ClosedGraph(g) && forall i :: 0 <= i < |w.queue| ==> w.queue[i].id in g
    ensures Iterate(g, w, limit, n).queue == []
  {
    hide Next, ClosedGraph;
    n := 0;
    var at := w;
    while at.queue != []
      invariant at == Iterate(g, w, limit, n)
      invariant forall i :: 0 <= i < |at.queue| ==> at.queue[i].id in g
      decreases Unrecorded(g, at.s), |at.queue|
    {
      StepsDescend(g, at, limit);
      NextInGraph(g, at, limit);
      at, n := Next(g, at, limit), n + 1;
    }
  }

  lemma NextInGraph(g: Graph, w: Walk, limit: Option<nat>)
    requires ClosedGraph(g) && w.queue != [] && forall i :: 0 <= i < |w.queue| ==> w.queue[i].id in g
    ensures forall i :: 0 <= i < |Next(g, w, limit).queue| ==> Next(g, w, limit).queue[i].id in g
  {
    hide Visit, Children, ClosedGraph, Added;
    AddedInGraph(g, w.s, w.queue[0], limit);
    var rest, added := w.queue[1..], Added(g, w.s, w.queue[0], limit);
    assert forall i :: 0 <= i < |rest| ==> rest[i] == w.queue[i + 1];
    assert Next(g, w, limit).queue == rest + added;
  }

  /** Everything in the queue can be reached from the roots. */
  ghost predicate FromRoots(g: Graph, roots: set<U64>, queue: seq<Item>) {
    forall i :: 0 <= i < |queue| ==> queue[i].id in Level(g, roots, queue[i].depth)
  }

  lemma NextFromRoots(g: Graph, roots: set<U64>, limit: Option<nat>, w: Walk)
    requires w.queue != [] && w.queue[0].id in g && FromRoots(g, roots, w.queue)
    ensures FromRoots(g, roots, Next(g, w, limit).queue)
  {
    hide Level, Children, Visit;
    var it, n, queue := w.queue[0], |w.queue| - 1, Next(g, w, limit).queue;
    forall i | 0 <= i < |queue| ensures queue[i].id in Level(g, roots, queue[i].depth) {
      if i < n {
        assert queue[i] == w.queue[i + 1];
      } else {
        var c := Children(g[it.id])[i - n];
        assert queue[i] == Item(c, it.depth + 1) && c in Children(g[it.id]);
        ChildLevel(g, roots, it.id, c, it.depth);
      }
    }
  }

  /** A walk from an empty object map captures by distance, whatever the heap and the cache held before. */
  lemma WalkFromNothing(g: Graph, roots: set<U64>, limit: Option<nat>, s: State, queue: seq<Item>, n: nat)
    requires ClosedGraph(g) && Sound(g, s) && s.objects == map[] && roots <= g.Keys
    requires forall i :: 0 <= i < |queue| ==> queue[i].depth == 0
    requires forall id :: id in roots <==> InQueue(queue, id)
    requires Iterate(g, Walk(s, queue, false, map[]), limit, n).queue == []
    requires Iterate(g, Walk(s, queue, false, map[]), limit, n).s.heapEnd <= MAX_FILE_SIZE
    ensures
      var end := Iterate(g, Walk(s, queue, false, map[]), limit, n);
      Captured(g, roots, limit, end.s, end.hit)
  {
    hide ClosedGraph, Sound, WalkOk, Captured, Iterate, InQueue;
    var w := Walk(s, queue, false, map[]);
    WalkStarts(g, roots, limit, w);
    IterateKeeps(g, roots, limit, w, n);
    WalkEnds(g, roots, limit, Iterate(g, w, limit, n));
  }

  // ------------------------------------------------------------------
  // Where a walk ends
  // ------------------------------------------------------------------

  ghost predicate CanWalk(g: Graph, queue: seq<Item>) {
    ClosedGraph(g) && forall i :: 0 <= i < |queue| ==> queue[i].id in g
  }

  /** The walk when its queue is empty. */
  ghost function EndOf(g: Graph, w: Walk, limit: Option<nat>): Walk
    decreases Unrecorded(g, w.s), |w.queue|
  {
    if w.queue == [] || !CanWalk(g, w.queue) then w
    else
      StepsDescend(g, w, limit);
      EndOf(g, Next(g, w, limit), limit)
  }

  lemma {:induction false} IterateFront(g: Graph, w: Walk, limit: Option<nat>, n: nat)
    ensures Iterate(g, w, limit, n + 1) == Iterate(g, Advance(g, w, limit), limit, n)
  {
    hide Advance;
    if n > 0 {
      IterateFront(g, w, limit, n - 1);
    }
  }

  /** However many steps it takes, a walk that is over has come to the one end it can come to. */
  lemma {:induction false} EndReached(g: Graph, w: Walk, limit: Option<nat>, n: nat)
    requires CanWalk(g, w.queue) && Iterate(g, w, limit, n).queue == []
    ensures Iterate(g, w, limit, n) == EndOf(g, w, limit)
    decreases n
  {
    hide Next, ClosedGraph;
    if n > 0 {
      IterateFront(g, w, limit, n - 1);
      if w.queue == [] {
        EndReached(g, w, limit, n - 1);
      } else {
        NextInGraph(g, w, limit);
        EndReached(g, Next(g, w, limit), limit, n - 1);
      }
    }
  }

  /** How many objects a walk processes until its queue is empty. */
  ghost function StepsOf(g: Graph, w: Walk, limit: Option<nat>): nat
    decreases Unrecorded(g, w.s), |w.queue|
  {
    if w.queue == [] || !CanWalk(g, w.queue) then 0
    else
      StepsDescend(g, w, limit);
      1 + StepsOf(g, Next(g, w, limit), limit)
  }

  lemma {:induction false} NothingAfterTheEnd(g: Graph, w: Walk, limit: Option<nat>, n: nat)
    requires w.queue == []
    ensures Iterate(g, w, limit, n) == w
  {
    if n > 0 {
      NothingAfterTheEnd(g, w, limit, n - 1);
    }
  }

  /** A walk that still has something to process has not taken all its steps, and one that is over has. */
  lemma {:induction false} StepsCounted(g: Graph, w: Walk, limit: Option<nat>, n: nat)
    requires CanWalk(g, w.queue) && (n > 0 ==> Iterate(g, w, limit, n - 1).queue != [])
    ensures n <= StepsOf(g, w, limit)
    ensures Iterate(g, w, limit, n).queue == [] ==> n == StepsOf(g, w, limit)
    decreases n
  {
    hide Next, ClosedGraph, Unrecorded;
    if n > 0 {
      if w.queue == [] {
        NothingAfterTheEnd(g, w, limit, n - 1);
      }
      StepsDescend(g, w, limit);
      NextInGraph(g, w, limit);
      IterateFront(g, w, limit, n - 1);
      if n > 1 {
        IterateFront(g, w, limit, n - 2);
      }
      StepsCounted(g, Next(g, w, limit), limit, n - 1);
    }
  }

  function WithPending(w: Walk, p: Pending): Walk {
    w.(s := w.s.(pending := p))
  }

  /** What is being written besides does not matter to a walk. */
  lemma NextPending(g: Graph, w: Walk, limit: Option<nat>, p: Pending)
    requires w.queue != [] && w.queue[0].id in g
    ensures Next(g, WithPending(w, p), limit) == WithPending(Next(g, w, limit), p)
  {
    hide EncRec, FullRec, LimitRec, ObjectHash, Children;
  }

  lemma {:induction false} EndPending(g: Graph, w: Walk, limit: Option<nat>, p: Pending)
    ensures EndOf(g, WithPending(w, p), limit) == WithPending(EndOf(g, w, limit), p)
    decreases Unrecorded(g, w.s), |w.queue|
  {
    hide Next, Unrecorded, ClosedGraph;
    if w.queue != [] && CanWalk(g, w.queue) {
      NextPending(g, w, limit, p);
      StepsDescend(g, w, limit);
      EndPending(g, Next(g, w, limit), limit, p);
    }
  }

  lemma {:induction false} StepsPending(g: Graph, w: Walk, limit: Option<nat>, p: Pending)
    ensures StepsOf(g, WithPending(w, p), limit) == StepsOf(g, w, limit)
    decreases Unrecorded(g, w.s), |w.queue|
  {
    hide Next, Unrecorded, ClosedGraph;
    if w.queue != [] && CanWalk(g, w.queue) {
      NextPending(g, w, limit, p);
      StepsDescend(g, w, limit);
      StepsPending(g, Next(g, w, limit), limit, p);
    }
  }

  lemma {:induction false} IteratePending(g: Graph, w: Walk, limit: Option<nat>, p: Pending, n: nat)
    ensures Iterate(g, WithPending(w, p), limit, n) == WithPending(Iterate(g, w, limit, n), p)
  {
    hide Next;
    if n > 0 {
      IteratePending(g, w, limit, p, n - 1);
      var before := Iterate(g, w, limit, n - 1);
      if before.queue != [] && before.queue[0].id in g {
        NextPending(g, before, limit, p);
      }
    }
  }

  lemma {:induction false} EndLeaves(g: Graph, w: Walk, limit: Option<nat>)
    ensures EndOf(g, w, limit).s.pending == w.s.pending && EndOf(g, w, limit).s.committed == w.s.committed
    decreases Unrecorded(g, w.s), |w.queue|
  {
    hide Next, Unrecorded, ClosedGraph;
    if w.queue != [] && CanWalk(g, w.queue) {
      StepsDescend(g, w, limit);
      AdvanceGrows(g, w, limit);
      EndLeaves(g, Next(g, w, limit), limit);
    }
  }
}
