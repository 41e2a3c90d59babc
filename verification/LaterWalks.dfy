/**
 * The walk of a later frame starts from an object map that earlier frames have filled. What is in the
 * map already is neither recorded again nor followed, so such a walk captures by the distance that is
 * left when those objects are taken out of the way.
 */
module LaterWalks {
  import opened Bytes
  import opened Format
  import opened Identity
  import opened Log
  import opened Reading
  import opened Objects
  import opened Walk

  /** What an object that is in the map already is to a walk: nothing to record, and nothing to follow. */
  const ENTERED := PyObject(0, [], None, IntBody(0x1_0000_0000_0000_0000, None))

  /** The graph as a walk finds it when these objects are in the map already. */
  function Without(g: Graph, known: set<U64>): Graph {
    map id | id in g :: if id in known then ENTERED else g[id]
  }

  function RestOf(s: State, known: set<U64>): State {
    s.(objects := s.objects - known)
  }

  function RestOfWalk(w: Walk, known: set<U64>): Walk {
    w.(s := RestOf(w.s, known))
  }

  lemma EnteredIsNothing()
    ensures Unreadable(ENTERED) && IsLeaf(ENTERED) && !IsMagic(ENTERED) && Children(ENTERED) == []
  {
  }

  lemma EntryBesides(m: map<U64, U64>, known: set<U64>, id: U64, offset: U64)
    requires id !in known
    ensures m[id := offset] - known == (m - known)[id := offset]
  {
  }

  lemma VisitRest(g: Graph, known: set<U64>, s: State, it: Item, limit: Option<nat>)
    requires it.id in g && known <= s.objects.Keys
    ensures Visit(Without(g, known), RestOf(s, known), it, limit) == RestOf(Visit(g, s, it, limit), known)
    ensures known <= Visit(g, s, it, limit).objects.Keys
  {
    hide EncRec, FullRec, LimitRec, ObjectHash, IsMagic, IsLeaf, Unreadable, Recorded;
    EnteredIsNothing();
    VisitEnters(g, s, it, limit);
    var o := g[it.id];
    if it.id !in s.objects && !Unreadable(o) {
      if IsMagic(o) {
        EntryBesides(s.objects, known, it.id, MagicOffset(o));
      } else if !IsLeaf(o) && AtLimit(limit, it.depth) {
        RecordedBesides(s, known, it.id, LimitRec(o), None);
      } else if CacheHit(s, it.id, ObjectHash(o)) {
        EntryBesides(s.objects, known, it.id, s.cache[it.id].offset);
      } else {
        RecordedBesides(s, known, it.id, FullRec(o), ObjectHash(o));
      }
    }
  }

  lemma RecordedBesides(s: State, known: set<U64>, id: U64, rec: Rec, hash: Option<U64>)
    requires id !in known
    ensures Recorded(RestOf(s, known), id, rec, hash) == RestOf(Recorded(s, id, rec, hash), known)
  {
    hide EncRec;
    EntryBesides(s.objects, known, id, s.heapEnd % TWO_64);
  }

  lemma NextRest(g: Graph, known: set<U64>, w: Walk, limit: Option<nat>)
    requires w.queue != [] && w.queue[0].id in g && known <= w.s.objects.Keys
    ensures Next(Without(g, known), RestOfWalk(w, known), limit) == RestOfWalk(Next(g, w, limit), known)
    ensures known <= Next(g, w, limit).s.objects.Keys
  {
    hide Visit, IsLeaf, Unreadable, Children;
    EnteredIsNothing();
    VisitRest(g, known, w.s, w.queue[0], limit);
  }

  /** Taken out of the way at the start or at the end comes to the same. */
  lemma {:induction false} IterateRest(g: Graph, known: set<U64>, w: Walk, limit: Option<nat>, n: nat)
    requires known <= w.s.objects.Keys
    ensures Iterate(Without(g, known), RestOfWalk(w, known), limit, n) == RestOfWalk(Iterate(g, w, limit, n), known)
    ensures known <= Iterate(g, w, limit, n).s.objects.Keys
  {
    hide Next;
    if n > 0 {
      IterateRest(g, known, w, limit, n - 1);
      var before := Iterate(g, w, limit, n - 1);
      if before.queue != [] && before.queue[0].id in g {
        NextRest(g, known, before, limit);
      }
    }
  }

  lemma RestIsSound(g: Graph, s: State)
    requires ClosedGraph(g) && Sound(g, s)
    ensures
      var g', s' := Without(g, s.objects.Keys), RestOf(s, s.objects.Keys);
      ClosedGraph(g') && Sound(g', s') && s'.objects == map[]
  {
    hide EncRec, FullRec, LimitRec, ObjectHash, SameButRepr, Children, Describes;
    var known := s.objects.Keys;
    EnteredIsNothing();
    assert s.objects - known == map[];
    forall id, c | id in Without(g, known) && c in Children(Without(g, known)[id]) ensures c in Without(g, known) {
      assert c in Children(g[id]);
    }
  }

  /** What is in the map stays, and so does its record. */
  lemma {:induction false} EntriesStay(g: Graph, w: Walk, limit: Option<nat>, n: nat)
    requires ClosedGraph(g) && Sound(g, w.s) && Iterate(g, w, limit, n).s.heapEnd <= MAX_FILE_SIZE
    ensures
      var end := Iterate(g, w, limit, n);
      && (forall id :: id in w.s.objects ==> id in end.s.objects && end.s.objects[id] == w.s.objects[id])
      && (forall off :: off in w.s.heap ==> off in end.s.heap && end.s.heap[off] == w.s.heap[off])
  {
    hide Visit, Added, ClosedGraph, Owned, Faithful, AllDescribed, WalkOk, Closed;
    if n > 0 {
      var before := Iterate(g, w, limit, n - 1);
      AdvanceGrows(g, before, limit);
      EntriesStay(g, w, limit, n - 1);
      IterateKeeps(g, {}, limit, w, n - 1);
      if before.queue != [] && before.queue[0].id in g {
        VisitEnters(g, before.s, before.queue[0], limit);
        VisitKeepsOwned(g, before.s, before.queue[0], limit);
      }
    }
  }

  /**
   * A walk from any sound state captures by distance: what was in the object map stays as it was, and of
   * the rest exactly the readable objects within the limit are added, by their distance over objects that
   * were not in the map.
   */
  lemma WalkFromAnywhere(g: Graph, roots: set<U64>, limit: Option<nat>, s: State, queue: seq<Item>, n: nat)
    requires ClosedGraph(g) && Sound(g, s) && roots <= g.Keys
    requires forall i :: 0 <= i < |queue| ==> queue[i].depth == 0
    requires forall id :: id in roots <==> InQueue(queue, id)
    requires Iterate(g, Walk(s, queue, false, map[]), limit, n).queue == []
    requires Iterate(g, Walk(s, queue, false, map[]), limit, n).s.heapEnd <= MAX_FILE_SIZE
    ensures
      var end := Iterate(g, Walk(s, queue, false, map[]), limit, n);
      && (forall id :: id in s.objects ==> id in end.s.objects && end.s.objects[id] == s.objects[id])
      && (forall off :: off in s.heap ==> off in end.s.heap && end.s.heap[off] == s.heap[off])
      && Captured(Without(g, s.objects.Keys), roots, limit, RestOf(end.s, s.objects.Keys), end.hit)
  {
    hide ClosedGraph, Sound, Captured, Iterate, InQueue, Without;
    var w, known := Walk(s, queue, false, map[]), s.objects.Keys;
    EntriesStay(g, w, limit, n);
    RestIsSound(g, s);
    IterateRest(g, known, w, limit, n);
    SameIds(g, known);
    WalkFromNothing(Without(g, known), roots, limit, RestOf(s, known), queue, n);
  }

  lemma SameIds(g: Graph, known: set<U64>)
    ensures Without(g, known).Keys == g.Keys
  {
  }

  // ------------------------------------------------------------------
  // Two frames
  // ------------------------------------------------------------------

  /** A list of one element, which is an empty list. */
  function TwoLists(): Graph {
    map[1 := PyObject(7, [], None, SeqBody(ListKind, [2], None)),
        2 := PyObject(7, [], None, SeqBody(ListKind, [], None))]
  }

  /**
   * With a limit of one, the first frame sees the inner list at the limit and records its repr. A second
   * frame that has the inner list itself for a local, at distance 0, finds it in the map and leaves it so.
   */
  lemma NearerFrameComesTooLate()
    ensures
      var g, limit := TwoLists(), Some(1);
      var first := Iterate(g, Walk(Empty, Queued([1], 0), false, map[]), limit, 2);
      var second := Iterate(g, Walk(first.s, Queued([2], 0), false, map[]), limit, 1);
      && first.queue == [] && second.queue == [] && AtDistance(g, {2}, 2, 0)
      && 2 in first.s.objects && first.s.objects[2] in first.s.heap
      && first.s.heap[first.s.objects[2]] == LimitRec(g[2])
      && second.s == first.s && LimitRec(g[2]) != FullRec(g[2])
  {
    hide EncRec, ObjectHash;
    var g, limit := TwoLists(), Some(1);
    var start := Walk(Empty, Queued([1], 0), false, map[]);
    IterateNext(g, start, limit, 0);
    IterateNext(g, start, limit, 1);
    InnerAtLimit();
    var first := Iterate(g, start, limit, 2);
    IterateNext(g, Walk(first.s, Queued([2], 0), false, map[]), limit, 0);
  }

  lemma InnerAtLimit()
    ensures
      var g, limit := TwoLists(), Some(1);
      var one := Next(g, Walk(Empty, Queued([1], 0), false, map[]), limit);
      && one.queue == [Item(2, 1)]
      && var two := Next(g, one, limit);
         && two.queue == [] && 2 in two.s.objects && two.s.objects[2] in two.s.heap
         && two.s.heap[two.s.objects[2]] == LimitRec(g[2])
  {
    hide EncRec, ObjectHash;
    var g, limit := TwoLists(), Some(1);
    var one := Next(g, Walk(Empty, Queued([1], 0), false, map[]), limit);
    assert Children(g[1]) == [2] && one.queue == [Item(2, 1)];
    FirstRecordEnds();
  }

  lemma FirstRecordEnds()
    ensures Visit(TwoLists(), Empty, Item(1, 0), Some(1)).heapEnd == 13
  {
  }
}
