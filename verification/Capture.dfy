/**
 * The capture of objects through the live writer: one object at a time, a queue until it is empty,
 * and the frames of a stack with the objects of each.
 */
module Capture {
  import opened Bytes
  import opened Format
  import opened Log
  import opened Layout
  import opened Reading
  import opened Writing
  import opened Identity
  import opened IntText
  import opened Objects
  import opened Walk
  import opened Budget
  import Runs

  /**
   * The cancel flag as one capture sees it. A timer or another thread raises it at some moment, if at
   * all; nobody lowers it before the capture is over.
   */
  class CancelFlag {
    const raisedAt: Option<nat>  // the first look that finds it raised
    var looks: nat
    ghost var cut: bool  // a walk has been cut short because of it

    constructor (raisedAt: Option<nat>)
      ensures this.raisedAt == raisedAt && looks == 0 && Valid() && !Seen()
    {
      this.raisedAt, looks, cut := raisedAt, 0, false;
    }

    /** It has been found raised. */
    ghost predicate Seen()
      reads this
    {
      raisedAt.Some? && raisedAt.value < looks
    }

    ghost predicate Valid()
      reads this
    {
      cut ==> Seen()
    }

    /** It is raised before this many looks have been taken. */
    predicate RaisedWithin(looks: nat) {
      raisedAt.Some? && raisedAt.value < looks
    }

    /** Whoever needs `need` looks has found it raised exactly if it is raised by then, and else has taken them all. */
    twostate predicate Looked(need: nat)
      reads this
    {
      && (Seen() <==> RaisedWithin(old(looks) + need))
      && (!Seen() ==> looks == old(looks) + need)
    }

    method IsRequested() returns (raised: bool)
      requires Valid()
      modifies this`looks
      ensures Valid() && looks == old(looks) + 1
      ensures raised == Seen()
    {
      raised := raisedAt.Some? && raisedAt.value <= looks;
      looks := looks + 1;
    }
  }

  /** What every step leaves as it was. */
  twostate predicate Carried(w: SnapshotWriter)
    reads w, w.mem, w.reader
  {
    && w.Valid() && w.initialized && w.reader == old(w.reader) && (w.mem == old(w.mem) || fresh(w.mem))
    && w.currentStacktracePos == old(w.currentStacktracePos) && old(w.attempts) <= w.attempts
  }

  /** Writing objects leaves the start of the heap where it is, too. */
  twostate predicate Kept(w: SnapshotWriter)
    reads w, w.mem, w.reader
  {
    Carried(w) && w.heapStart == old(w.heapStart)
  }

  lemma HeapFits(img: seq<Byte>, c: Counters, snaps: seq<Snap>, s: State)
    requires Inv(img, c, snaps, s)
    ensures s.heapEnd <= MAX_FILE_SIZE
  {
    InvOrder(img, c, snaps, s);
    InvFlags(img, c, snaps, s);
  }

  /** Integers come as decimal text if they do not fit into 64 bits. */
  method WriteInt(w: SnapshotWriter, text: Str) returns (o: Outcome, offset: nat)
    requires w.Valid() && w.initialized
    modifies w, w.mem, w.reader
    ensures w.WroteRecord(IntRec(text), o, offset)
  {
    hide Inv, Growth, EncRec, Stepped, Stoll;
    var digitCount := if text != [] && text[0] == 0x2d then |text| - 1 else |text|;
    if digitCount <= 18 || (digitCount == 19 && |text| <= 20) {
      var parsed := Stoll(text);
      if parsed.Number? {
        o, offset := w.WriteInt64(parsed.value);
        return;
      }
    }
    o, offset := w.WriteText(BignumText, text);
  }

  // ------------------------------------------------------------------
  // One object
  // ------------------------------------------------------------------

  /** How a step that writes at most one record may end. */
  predicate SavedOr(s: State, s': State, o: Outcome, saved: State) {
    (o.Done? ==> s' == saved) && (o.Failed? ==> s' == s && o == Failed(OutOfSpace))
  }

  lemma WrittenAndRegistered(s: State, rec: Rec, id: U64, hash: Option<U64>)
    requires s.heapEnd < MAX_FILE_SIZE
    ensures
      var t := Apply(s, Write(rec));
      var offset: U64 := s.heapEnd;
      GoodOffset(t, offset) && offset != NONE_OFFSET
      && Recorded(s, id, rec, hash) ==
         (if hash.Some? then Apply(t, RegisterBoth(id, offset, hash.value)) else Apply(t, Register(id, offset)))
  {
    hide EncRec;
  }

  /** Write a record and enter it in the object map. */
  method WriteAndRegister(w: SnapshotWriter, id: U64, rec: Rec) returns (o: Outcome)
    requires w.Valid() && w.initialized
    modifies w, w.mem, w.reader
    ensures Kept(w) && SavedOr(old(w.st), w.st, o, Recorded(old(w.st), id, rec, None))
    ensures o.Failed? ==> w.Lacks(Write(rec), old(w.attempts))
  {
    hide Inv, Growth, EncRec, Recorded, GoodOffset;
    var offset;
    o, offset := Runs.WriteAny(w, rec);
    if o.Done? {
      WrittenAndRegistered(old(w.st), rec, id, None);
      w.RegisterObject(id, offset);
    }
  }

  /** Write a record and enter it in both tables. */
  method WriteUnderHash(w: SnapshotWriter, id: U64, rec: Rec, hash: U64) returns (o: Outcome)
    requires w.Valid() && w.initialized
    modifies w, w.mem, w.reader
    ensures Kept(w) && SavedOr(old(w.st), w.st, o, Recorded(old(w.st), id, rec, Some(hash)))
    ensures o.Failed? ==> w.Lacks(Write(rec), old(w.attempts))
  {
    hide Inv, Growth, EncRec, Recorded, GoodOffset;
    var offset;
    o, offset := Runs.WriteAny(w, rec);
    if o.Done? {
      WrittenAndRegistered(old(w.st), rec, id, Some(hash));
      w.RegisterObjectWithBothCaches(id, offset, hash);
    }
  }

  /** Reuse the cached record of an unchanged object, or write it and enter it in both tables. */
  method SaveUnderHash(w: SnapshotWriter, id: U64, rec: Rec, hash: U64) returns (o: Outcome)
    requires w.Valid() && w.initialized
    modifies w, w.mem, w.reader
    ensures Kept(w) && SavedOr(old(w.st), w.st, o, Saved(old(w.st), id, rec, Some(hash)))
    ensures o.Failed? ==> w.Lacks(Write(rec), old(w.attempts))
  {
    hide Inv, Growth, EncRec, Recorded, SnapshotWriter.Lacks, GoodOffset;
    var cached := w.LookupObjectWithHash(id, hash);
    if cached != 0 {
      RegisteredSo(w.st, id, cached);
      w.RegisterObject(id, cached);
      return Done;
    }
    o := WriteUnderHash(w, id, rec, hash);
  }

  lemma RegisteredSo(s: State, id: U64, offset: U64)
    requires GoodOffset(s, offset)
    ensures Apply(s, Register(id, offset)) == s.(objects := s.objects[id := offset])
  {
  }

  /** The record of some object of the graph. */
  ghost predicate RecordOf(g: Graph, id: U64, rec: Rec) {
    id in g && !IsMagic(g[id]) && !Unreadable(g[id]) && (rec == FullRec(g[id]) || rec == LimitRec(g[id]))
  }

  /** The record of an object that the roots lead to was the next thing to write, and there was no room for it. */
  ghost predicate LacksRecord(w: SnapshotWriter, g: Graph, roots: set<U64>, since: nat)
    reads w, w.mem
  {
    exists id, rec, k :: id in Level(g, roots, k) && RecordOf(g, id, rec) && w.Lacks(Write(rec), since)
  }

  /** Space can only be short if the file system has refused again, or if there is not room enough below the limit. */
  ghost predicate NoRoom(w: SnapshotWriter, since: nat, room: nat)
    reads w
  {
    w.Again(since) || room > MAX_FILE_SIZE
  }

  method RegisterSingleton(w: SnapshotWriter, id: U64, offset: U64)
    requires w.Valid() && w.initialized && IsMagicOffset(offset)
    modifies w
    ensures Kept(w) && w.mem == old(w.mem) && w.st == old(w.st).(objects := old(w.st).objects[id := offset])
  {
    hide Inv, Growth;
    w.RegisterObject(id, offset);
  }

  /** An exact integer. One whose text cannot be had is counted as an error and left out. */
  method ProcessInt(w: SnapshotWriter, id: U64, obj: PyObject) returns (o: Outcome)
    requires w.Valid() && w.initialized && obj.body.IntBody?
    modifies w, w.mem, w.reader
    ensures Kept(w)
    ensures SavedOr(old(w.st), w.st, o, if Unreadable(obj) then old(w.st) else Saved(old(w.st), id, FullRec(obj), None))
    ensures o.Failed? ==> !Unreadable(obj) && w.Lacks(Write(FullRec(obj)), old(w.attempts))
  {
    hide Inv, Growth, EncRec, IntRec;
    if FitsI64(obj.body.number) {
      o := WriteAndRegister(w, id, Int64(obj.body.number));
    } else if obj.body.text.None? {
      o := Done;
    } else {
      var offset;
      o, offset := WriteInt(w, obj.body.text.value);
      if o.Done? {
        WrittenAndRegistered(old(w.st), IntRec(obj.body.text.value), id, None);
        w.RegisterObject(id, offset);
      }
    }
  }

  /** An exact string or bytes object, under Python's own hash if it has one. */
  method ProcessText(w: SnapshotWriter, id: U64, obj: PyObject) returns (o: Outcome)
    requires w.Valid() && w.initialized && obj.body.TextBody?
    modifies w, w.mem, w.reader
    ensures Kept(w)
    ensures SavedOr(old(w.st), w.st, o,
                    if Unreadable(obj) then old(w.st) else Saved(old(w.st), id, FullRec(obj), ObjectHash(obj)))
    ensures o.Failed? ==> !Unreadable(obj) && w.Lacks(Write(FullRec(obj)), old(w.attempts))
  {
    hide Inv, Growth, EncRec, TextHash;
    if obj.body.chars.None? {
      return Done;
    }
    var rec := Text(if obj.body.isBytes then BytesText else StringText, obj.body.chars.value);
    if obj.body.pyHash.None? {
      o := WriteAndRegister(w, id, rec);
    } else {
      var identityHash := TextHash(obj.body.pyHash.value, obj.typePtr);
      o := SaveUnderHash(w, id, rec, identityHash);
    }
  }

  /** Put references at the end of the queue. */
  method Enqueue(queue: seq<Item>, ids: seq<U64>, depth: nat) returns (queue': seq<Item>)
    ensures queue' == queue + Queued(ids, depth)
  {
    queue' := queue;
    for i := 0 to |ids|
      invariant queue' == queue + Queued(ids[..i], depth)
    {
      assert Queued(ids[..i + 1], depth) == Queued(ids[..i], depth) + [Item(ids[i], depth)];
      queue' := queue' + [Item(ids[i], depth)];
    }
    assert ids[..|ids|] == ids;
  }

  /** The ids of keys and values, alternating. */
  method FlatIds(pairs: seq<Pair>) returns (ids: seq<U64>)
    ensures ids == Flat(pairs)
  {
    ids := [];
    for i := 0 to |pairs|
      invariant ids == Flat(pairs[..i])
    {
      assert pairs[..i + 1][..i] == pairs[..i];
      ids := ids + [pairs[i].key, pairs[i].value];
    }
    assert pairs[..|pairs|] == pairs;
  }

  lemma QueuedInTwo(a: seq<U64>, b: seq<U64>, depth: nat)
    ensures Queued(a + b, depth) == Queued(a, depth) + Queued(b, depth)
  {
  }

  /** Elements, or keys and values; then the names and values of attributes. */
  method References(obj: PyObject) returns (size: U64, childIds: seq<U64>, attrIds: seq<U64>)
    requires obj.body.SeqBody? || obj.body.DictBody? || obj.body.OtherBody?
    ensures childIds + attrIds == Children(obj)
    ensures ObjectHash(obj) == Some(IdentityHash(obj.typePtr, size, Children(obj)))
  {
    hide IdentityHash, Flat;
    size, childIds, attrIds := 0, [], [];
    match obj.body {
      case SeqBody(_, items, attrs) =>
        size, childIds := |items|, items;
        if attrs.Some? {
          attrIds := FlatIds(attrs.value);
        }
      case DictBody(entries, attrs) =>
        size := |entries|;
        childIds := FlatIds(entries);
        if attrs.Some? {
          attrIds := FlatIds(attrs.value);
        }
      case OtherBody(members) =>
        size := |members|;
        attrIds := FlatIds(members);
    }
  }

  /** A container: queue what it refers to, then write it unless it is unchanged. */
  method ProcessContainer(w: SnapshotWriter, it: Item, obj: PyObject, queue: seq<Item>)
    returns (o: Outcome, queue': seq<Item>)
    requires w.Valid() && w.initialized && (obj.body.SeqBody? || obj.body.DictBody? || obj.body.OtherBody?)
    modifies w, w.mem, w.reader
    ensures Kept(w) && SavedOr(old(w.st), w.st, o, Saved(old(w.st), it.id, FullRec(obj), ObjectHash(obj)))
    ensures o.Failed? ==> w.Lacks(Write(FullRec(obj)), old(w.attempts))
    ensures queue' == queue + Queued(Children(obj), it.depth + 1)
  {
    hide Inv, Growth, EncRec, IdentityHash, Children, ObjectHash, Saved, FullRec;
    var size, childIds, attrIds := References(obj);
    queue' := Enqueue(queue, childIds, it.depth + 1);
    queue' := Enqueue(queue', attrIds, it.depth + 1);
    QueuedInTwo(childIds, attrIds, it.depth + 1);
    var identityHash := ComputeIdentityHash(obj.typePtr, size, childIds + attrIds);
    o := SaveUnderHash(w, it.id, FullRec(obj), identityHash);
  }

  /** Write an object to the heap if need be, and queue what it refers to. */
  method ProcessObject(w: SnapshotWriter, g: Graph, it: Item, limit: Option<nat>, queue: seq<Item>)
    returns (o: Outcome, queue': seq<Item>, hit: bool)
    requires w.Valid() && w.initialized && it.id in g
    modifies w, w.mem, w.reader
    ensures Kept(w) && SavedOr(old(w.st), w.st, o, Visit(g, old(w.st), it, limit))
    ensures o.Done? ==> queue' == queue + Added(g, old(w.st), it, limit) && hit == Hits(g, old(w.st), it, limit)
    ensures o.Failed? ==> LacksObject(w, g, it, limit, old(w.attempts))
  {
    hide Inv, Growth, EncRec, ObjectHash, Recorded, Saved, Children, Flat, SnapshotWriter.Lacks, SnapshotWriter.Valid;
    o, queue', hit := Done, queue, false;
    var found, existing := w.TryLookupObject(it.id);
    if found {
      return;
    }
    var obj := g[it.id];
    if obj.body.NoneBody? {
      RegisterSingleton(w, it.id, NONE_OFFSET);
    } else if obj.body.BoolBody? {
      RegisterSingleton(w, it.id, if obj.body.value then TRUE_OFFSET else FALSE_OFFSET);
    } else if obj.body.IntBody? {
      o := ProcessInt(w, it.id, obj);
      UnhashedLeaf(obj);
    } else if obj.body.FloatBody? {
      o := WriteAndRegister(w, it.id, Float(obj.body.bits));
      UnhashedLeaf(obj);
      SavedUnhashed(old(w.st), it.id, Float(obj.body.bits));
    } else if obj.body.TextBody? {
      o := ProcessText(w, it.id, obj);
    } else if limit.Some? && it.depth >= limit.value {
      hit := true;
      o := WriteAndRegister(w, it.id, LimitRec(obj));
    } else if obj.body.ReprBody? {
      o := WriteAndRegister(w, it.id, Text(StringText, ReprOr(obj, REPR_FAILED)));
      UnhashedLeaf(obj);
      SavedUnhashed(old(w.st), it.id, Text(StringText, ReprOr(obj, REPR_FAILED)));
    } else {
      o, queue' := ProcessContainer(w, it, obj, queue);
    }
  }

  /** What a visit writes. */
  function RecFor(o: PyObject, limit: Option<nat>, depth: nat): Rec
    requires !IsMagic(o) && !Unreadable(o)
  {
    if !IsLeaf(o) && AtLimit(limit, depth) then LimitRec(o) else FullRec(o)
  }

  /** There was no room for what a visit to this object writes. */
  ghost predicate LacksObject(w: SnapshotWriter, g: Graph, it: Item, limit: Option<nat>, since: nat)
    reads w, w.mem
  {
    && it.id in g && it.id !in w.st.objects && !IsMagic(g[it.id]) && !Unreadable(g[it.id])
    && w.Lacks(Write(RecFor(g[it.id], limit, it.depth)), since)
  }

  lemma LacksOf(w: SnapshotWriter, g: Graph, roots: set<U64>, queue: seq<Item>, limit: Option<nat>, since: nat,
                since0: nat)
    requires queue != [] && FromRoots(g, roots, queue) && since0 <= since && LacksObject(w, g, queue[0], limit, since)
    ensures LacksRecord(w, g, roots, since0)
  {
    hide Level;
    var it := queue[0];
    assert RecordOf(g, it.id, RecFor(g[it.id], limit, it.depth));
    assert it.id in Level(g, roots, it.depth);
    assert w.Lacks(Write(RecFor(g[it.id], limit, it.depth)), since0);
  }

  /** What cannot be written does not fit below the limit, unless an extension was refused. */
  lemma ObjectHasNoRoom(w: SnapshotWriter, g: Graph, start: Walk, limit: Option<nat>, steps: nat, it: Item, since: nat,
                        since0: nat)
    requires w.Valid() && w.initialized && w.st == Iterate(g, start, limit, steps).s
    requires LacksObject(w, g, it, limit, since) && since0 <= since
    ensures NoRoom(w, since0, Room(g, start.s, w.heapStart, 0))
  {
    hide Inv, Growth, EncRec, FullRec, LimitRec, Iterate, Bill, HeapBill, Needed, Room;
    var rec := RecFor(g[it.id], limit, it.depth);
    RecForCost(g, it, limit);
    ObjectFits(g, w.mem[..], w.C(), w.snaps, w.st, it.id, rec);
    WalkPaid(g, start, limit, steps, w.heapStart);
    RoomFromStart(g, start.s, w.heapStart, w.st, w.heapStart, 0, 0);
  }

  lemma RecForCost(g: Graph, it: Item, limit: Option<nat>)
    requires it.id in g && !IsMagic(g[it.id]) && !Unreadable(g[it.id])
    ensures |EncRec(RecFor(g[it.id], limit, it.depth))| <= CostOf(g, it.id)
  {
    hide EncRec, FullRec, LimitRec;
  }

  lemma UnhashedLeaf(o: PyObject)
    requires o.body.IntBody? || o.body.FloatBody? || o.body.ReprBody?
    ensures ObjectHash(o) == None && Children(o) == []
  {
  }

  lemma SavedUnhashed(s: State, id: U64, rec: Rec)
    ensures Saved(s, id, rec, None) == Recorded(s, id, rec, None)
  {
  }

  // ------------------------------------------------------------------
  // The objects of one frame
  // ------------------------------------------------------------------

  ghost predicate QueueInGraph(g: Graph, queue: seq<Item>) {
    forall i :: 0 <= i < |queue| ==> queue[i].id in g
  }

  /** How a walk came out that was cut short, or not: it has taken all its steps, or some of them. */
  ghost predicate Walked(g: Graph, start: Walk, limit: Option<nat>, steps: nat, s: State, completed: bool, hit: bool) {
    var end := Iterate(g, start, limit, steps);
    && s == end.s && hit == end.hit && steps <= StepsOf(g, start, limit)
    && (if completed then end.queue == [] && steps == StepsOf(g, start, limit) else steps > 0)
  }

  /**
   * Process the queue until it is empty, or the cancel flag is found raised. It is looked at after every
   * object.
   */
  method ProcessFrameObjects(w: SnapshotWriter, g: Graph, queue: seq<Item>, limit: Option<nat>, cancel: CancelFlag,
                             ghost depthOf: map<U64, nat>, ghost roots: set<U64>)
    returns (o: Outcome, completed: bool, hit: bool, ghost steps: nat)
    requires w.Valid() && w.initialized && ClosedGraph(g) && QueueInGraph(g, queue) && FromRoots(g, roots, queue)
    requires cancel.Valid() && !cancel.Seen()
    modifies w, w.mem, w.reader, cancel
    ensures Kept(w) && cancel.Valid()
    ensures
      var start := Walk(old(w.st), queue, false, depthOf);
      && w.st == Iterate(g, start, limit, steps).s
      && (o.Done? ==> Walked(g, start, limit, steps, w.st, completed, hit) && cancel.Looked(StepsOf(g, start, limit)))
    ensures o.Done? ==> completed == !cancel.Seen() == !cancel.cut
    ensures o.Failed? ==> o == Failed(OutOfSpace) && LacksRecord(w, g, roots, old(w.attempts))
    ensures o.Failed? ==> NoRoom(w, old(w.attempts), Room(g, old(w.st), w.heapStart, 0))
  {
    hide Inv, Growth, Next, LacksRecord, LacksObject, Visit, Added, Hits, Children, Iterate, Advance, ClosedGraph,
         Unrecorded, StepsOf, Room, FromRoots, SnapshotWriter.Valid;
    ghost var start, since := Walk(w.st, queue, false, depthOf), w.attempts;
    ghost var at := start;
    var rest := queue;
    o, completed, hit, steps := Done, false, false, 0;
    IterateNext(g, start, limit, 0);
    StepsCounted(g, start, limit, 0);
    while rest != []
      invariant Kept(w) && o.Done? && cancel.Valid() && !cancel.Seen() && cancel.looks == old(cancel.looks) + steps
      invariant at == Iterate(g, start, limit, steps) && steps <= StepsOf(g, start, limit)
      invariant rest == [] ==> steps == StepsOf(g, start, limit)
      invariant at.s == w.st && at.queue == rest && at.hit == hit
      invariant QueueInGraph(g, rest) && FromRoots(g, roots, rest)
      decreases Unrecorded(g, at.s), |rest|
    {
      ghost var before, asked := at, w.attempts;
      var queue', newHit;
      o, queue', newHit := ProcessObject(w, g, rest[0], limit, rest[1..]);
      if o.Failed? {
        LacksOf(w, g, roots, rest, limit, asked, since);
        ObjectHasNoRoom(w, g, start, limit, steps, rest[0], asked, since);
        return;
      }
      IterateNext(g, start, limit, steps);
      StepsCounted(g, start, limit, steps + 1);
      StepsDescend(g, before, limit);
      ObjectProcessed(g, before, limit);
      NextFromRoots(g, roots, limit, before);
      at, steps := Next(g, at, limit), steps + 1;
      rest, hit := queue', hit || newHit;
      var cancelRequested := cancel.IsRequested();
      if cancelRequested {
        cancel.cut := true;
        return;
      }
    }
    completed := true;
  }

  lemma ObjectProcessed(g: Graph, w: Walk, limit: Option<nat>)
    requires ClosedGraph(g) && w.queue != [] && QueueInGraph(g, w.queue)
    ensures
      var it, n := w.queue[0], Next(g, w, limit);
      && n == Advance(g, w, limit)
      && n.s == Visit(g, w.s, it, limit) && n.queue == w.queue[1..] + Added(g, w.s, it, limit)
      && n.hit == (w.hit || Hits(g, w.s, it, limit)) && QueueInGraph(g, n.queue)
  {
    hide Visit, Children, ClosedGraph;
    var it := w.queue[0];
    AddedInGraph(g, w.s, it, limit);
    assert forall i :: 0 <= i < |w.queue[1..]| ==> w.queue[1..][i] == w.queue[i + 1];
  }
}
