/** The capture of an exception with everything that led to it: one stacktrace for each, in one snapshot. */
module ExceptionCapture {
  import opened Bytes
  import opened Format
  import opened Log
  import opened Layout
  import opened Reading
  import opened Writing
  import opened Objects
  import opened Walk
  import opened Budget
  import opened Capture
  import opened Space
  import opened Stacks
  import opened ExceptionChain
  import Runs

  /** As much of a chain as has been followed. */
  ghost predicate PartOfChain(excs: map<U64, Links>, root: U64, chain: seq<U64>) {
    && chain != [] && chain[0] == root
    && (forall i :: 0 <= i < |chain| ==> chain[i] in excs)
    && (forall i, j :: 0 <= i < j < |chain| ==> chain[i] != chain[j])
    && (forall i :: 0 <= i < |chain| - 1 ==> Follow(excs[chain[i]]) == Some(chain[i + 1]))
  }

  lemma ChainGrows(excs: map<U64, Links>, root: U64, chain: seq<U64>, next: U64)
    requires ClosedLinks(excs) && PartOfChain(excs, root, chain) && next !in chain
    requires Follow(excs[chain[|chain| - 1]]) == Some(next)
    ensures next in excs && PartOfChain(excs, root, chain + [next])
  {
  }

  lemma ChainEnds(excs: map<U64, Links>, root: U64, chain: seq<U64>)
    requires PartOfChain(excs, root, chain)
    requires
      var next := Follow(excs[chain[|chain| - 1]]);
      next.Some? ==> next.value in chain
    ensures IsChain(excs, root, chain)
  {
  }

  lemma ChainStarts(excs: map<U64, Links>, root: U64)
    requires root in excs
    ensures PartOfChain(excs, root, [root])
  {
  }

  /** Follow causes and contexts until there is none left or one has been seen. */
  method CollectExceptions(excs: map<U64, Links>, root: U64) returns (chain: seq<U64>)
    requires ClosedLinks(excs) && root in excs
    ensures IsChain(excs, root, chain)
  {
    hide ClosedLinks, PartOfChain, IsChain;
    ChainStarts(excs, root);
    chain := [root];
    var seen, current := {root}, root;
    while true
      invariant PartOfChain(excs, root, chain) && chain != [] && chain[|chain| - 1] == current && current in excs
      invariant forall e :: e in seen <==> e in chain
      decreases |excs.Keys - seen|
    {
      var e := excs[current];
      var next: Option<U64> := None;
      if e.cause.Some? {
        next := e.cause;
      } else if e.context.Some? && !e.suppressed {
        next := e.context;
      }
      if next.None? || next.value in seen {
        ChainEnds(excs, root, chain);
        return;
      }
      ChainGrows(excs, root, chain, next.value);
      Shrinks(excs.Keys, seen, next.value);
      seen, chain, current := seen + {next.value}, chain + [next.value], next.value;
    }
  }

  lemma Shrinks(all: set<U64>, seen: set<U64>, e: U64)
    requires e in all && e !in seen
    ensures |all - (seen + {e})| < |all - seen|
  {
    assert all - (seen + {e}) == (all - seen) - {e};
  }

  /** Stacktrace ids count from 1 along the chain. */
  method AssignIds(chain: seq<U64>) returns (ids: map<U64, U64>)
    requires |chain| < 0x1_0000_0000
    requires forall i, j :: 0 <= i < j < |chain| ==> chain[i] != chain[j]
    ensures forall e :: e in ids <==> e in chain
    ensures forall i :: 0 <= i < |chain| ==> ids[chain[i]] == i + 1
  {
    ids := map[];
    for i := 0 to |chain|
      invariant forall e :: e in ids <==> e in chain[..i]
      invariant forall j :: 0 <= j < i ==> chain[j] in ids && ids[chain[j]] == j + 1
    {
      ids := ids[chain[i] := i + 1];
    }
    assert chain[..|chain|] == chain;
  }

  /** What the stacktrace of an exception is begun with. */
  method InfoOf(excs: map<U64, Links>, chain: seq<U64>, ids: map<U64, U64>, i: nat) returns (info: StackInfo)
    requires i < |chain| < 0x1_0000_0000 && chain[i] in excs
    requires forall e :: e in ids <==> e in chain
    requires forall j :: 0 <= j < |chain| ==> ids[chain[j]] == j + 1
    ensures InfoFor(excs, chain, i, info)
  {
    var exc := chain[i];
    var stacktraceId := ids[exc];
    var e := excs[exc];
    var causeId := stacktraceId;
    if e.cause.Some? && e.cause.value in ids {
      causeId := ids[e.cause.value];
    }
    var contextId := stacktraceId;
    if e.context.Some? && e.context.value in ids {
      contextId := ids[e.context.value];
    }
    info := StackInfo(stacktraceId, [], exc, causeId, contextId);
  }

  // ------------------------------------------------------------------
  // One exception
  // ------------------------------------------------------------------

  /** The tracebacks of the exceptions, outermost entry first; an exception may have none. */
  type Tracebacks = map<U64, seq<Frame>>

  ghost predicate TracebacksInGraph(g: Graph, tracebacks: Tracebacks) {
    forall exc :: exc in tracebacks ==> LocalsInGraph(g, tracebacks[exc])
  }

  ghost predicate ObjectKnown(g: Graph, objects: map<U64, U64>, id: U64) {
    id in objects || (id in g && Unreadable(g[id]))
  }

  /** The walk over an object, its first step taken. */
  function ObjectWalk(g: Graph, s: State, id: U64, limit: Option<nat>): Walk {
    if id in g then Walk(Visit(g, s, Item(id, 0), limit), Added(g, s, Item(id, 0), limit), false, map[])
      else Walk(s, [], false, map[])
  }

  ghost function ObjectAfter(g: Graph, s: State, id: U64, limit: Option<nat>): State {
    EndOf(g, ObjectWalk(g, s, id, limit), limit).s
  }

  ghost predicate ObjectHit(g: Graph, s: State, id: U64, limit: Option<nat>) {
    (id in g && Hits(g, s, Item(id, 0), limit)) || EndOf(g, ObjectWalk(g, s, id, limit), limit).hit
  }

  /** The object of the exception itself, with all that hangs on it. */
  method CaptureObject(w: SnapshotWriter, g: Graph, id: U64, limit: Option<nat>, cancel: CancelFlag)
    returns (o: Outcome, completed: bool, hit: bool)
    requires w.Valid() && w.initialized && ClosedGraph(g) && id in g
    requires cancel.Valid() && !cancel.Seen()
    modifies w, w.mem, w.reader, cancel
    ensures Kept(w) && w.st.committed == old(w.st).committed && w.st.pending == old(w.st).pending && cancel.Valid()
    ensures o.Done? ==> ObjectCaptured(g, old(w.st), w.st, id, limit, completed, hit)
    ensures o.Done? ==>
      completed == !cancel.Seen() == !cancel.cut
        && cancel.Looked(StepsOf(g, ObjectWalk(g, old(w.st), id, limit), limit))
    ensures o.Done? ==> Spent(g, old(w.st), old(w.heapStart), w.st, w.heapStart, 0)
    ensures o.Failed? ==> o == Failed(OutOfSpace) && LacksRecord(w, g, {id}, old(w.attempts))
    ensures o.Failed? ==> NoRoom(w, old(w.attempts), Room(g, old(w.st), old(w.heapStart), 0))
  {
    hide Inv, Growth, Sound, Closed, ClosedGraph, Iterate, Visit, Added, Hits, LacksRecord, LacksObject, ObjectCaptured,
         StepsOf, Walked, Spent, Room, FromRoots, SnapshotWriter.Valid;
    ghost var s, hs, since := w.st, w.heapStart, w.attempts;
    completed := false;
    var queue;
    o, queue, hit := ProcessObject(w, g, Item(id, 0), limit, []);
    if o.Failed? {
      FirstHasNoRoom(w, g, s, id, limit, since);
      return;
    }
    ghost var s1, since1 := w.st, w.attempts;
    FirstObject(g, s, id, limit);
    assert queue == Added(g, s, Item(id, 0), limit);
    AddedInGraph(g, s, Item(id, 0), limit);
    FirstFromRoots(g, s, id, limit);
    FirstSpent(g, s, id, limit, hs);
    var newHit;
    ghost var steps;
    HeapKept(w);
    o, completed, newHit, steps := ProcessFrameObjects(w, g, queue, limit, cancel, map[], {id});
    ghost var firstHit := hit;
    hit := hit || newHit;
    IterateLeaves(g, Walk(s1, queue, false, map[]), limit, steps);
    if o.Failed? {
      LackedBefore(w, g, {id}, since1, since);
      RoomFromStart(g, s, hs, s1, hs, 0, 0);
      return;
    }
    HeapKept(w);
    ObjectCapturedSo(g, s, id, limit, steps, w.st, completed, newHit, firstHit);
    WalkPaid(g, Walk(s1, queue, false, map[]), limit, steps, hs);
    SpentFurther(g, s, hs, s1, hs, w.st, hs, 0, 0);
  }

  lemma HeapKept(w: SnapshotWriter)
    requires w.Valid() && w.initialized
    ensures w.st.heapEnd <= MAX_FILE_SIZE
  {
    hide Inv, Growth;
    HeapFits(w.mem[..], w.C(), w.snaps, w.st);
  }

  lemma FirstHasNoRoom(w: SnapshotWriter, g: Graph, s: State, id: U64, limit: Option<nat>, since: nat)
    requires w.Valid() && w.initialized && w.st == s && LacksObject(w, g, Item(id, 0), limit, since)
    ensures LacksRecord(w, g, {id}, since) && NoRoom(w, since, Room(g, s, w.heapStart, 0))
  {
    hide Inv, Growth, LacksObject, LacksRecord, Room;
    var start := Walk(s, [Item(id, 0)], false, map[]);
    LacksOf(w, g, {id}, start.queue, limit, since, since);
    ObjectHasNoRoom(w, g, start, limit, 0, Item(id, 0), since, since);
  }

  lemma FirstFromRoots(g: Graph, s: State, id: U64, limit: Option<nat>)
    requires id in g
    ensures FromRoots(g, {id}, Added(g, s, Item(id, 0), limit))
  {
    hide Visit, Added;
    var w := Walk(s, [Item(id, 0)], false, map[]);
    NextFromRoots(g, {id}, limit, w);
    assert Next(g, w, limit).queue == Added(g, s, Item(id, 0), limit);
  }

  lemma FirstSpent(g: Graph, s: State, id: U64, limit: Option<nat>, heapStart: nat)
    requires id in g
    ensures Spent(g, s, heapStart, Visit(g, s, Item(id, 0), limit), heapStart, 0)
  {
    hide Visit, Bill, HeapBill;
    VisitPaid(g, s, Item(id, 0), limit);
  }

  ghost predicate ObjectCaptured(g: Graph, s: State, s': State, id: U64, limit: Option<nat>, completed: bool, hit: bool)
  {
    && s'.committed == s.committed && s'.pending == s.pending && s.objects.Keys <= s'.objects.Keys
    && (Sound(g, s) ==> Sound(g, s'))
    && ObjectKnown(g, s'.objects, id)
    && (completed && Whole(g, s) ==> Whole(g, s'))
    && (completed ==> s' == ObjectAfter(g, s, id, limit) && hit == ObjectHit(g, s, id, limit))
    && (!completed ==> exists n :: ObjectCut(g, s, s', id, limit, n, hit))
  }

  /** Some of the steps of the walk over an object have been taken. */
  ghost predicate ObjectCut(g: Graph, s: State, s': State, id: U64, limit: Option<nat>, n: nat, hit: bool) {
    var w := ObjectWalk(g, s, id, limit);
    && 0 < n <= StepsOf(g, w, limit) && s' == Iterate(g, w, limit, n).s
    && (hit <==> (id in g && Hits(g, s, Item(id, 0), limit)) || Iterate(g, w, limit, n).hit)
  }

  lemma FirstObject(g: Graph, s: State, id: U64, limit: Option<nat>)
    requires id in g
    ensures
      var s1 := Visit(g, s, Item(id, 0), limit);
      s1.pending == s.pending && s1.committed == s.committed && s.objects.Keys <= s1.objects.Keys
        && ObjectKnown(g, s1.objects, id)
  {
    hide EncRec, FullRec, LimitRec, ObjectHash;
  }

  lemma ObjectCapturedSo(g: Graph, s: State, id: U64, limit: Option<nat>, steps: nat, s': State, completed: bool,
                         hit: bool, firstHit: bool)
    requires ClosedGraph(g) && id in g && firstHit == Hits(g, s, Item(id, 0), limit)
    requires Walked(g, ObjectWalk(g, s, id, limit), limit, steps, s', completed, hit)
    requires ObjectWalk(g, s, id, limit).s.heapEnd <= MAX_FILE_SIZE && s'.heapEnd <= MAX_FILE_SIZE
    ensures ObjectCaptured(g, s, s', id, limit, completed, firstHit || hit)
  {
    hide ClosedGraph, Iterate, Visit, Added, Hits, Closed, Owned, Faithful, AllDescribed, WalkOk, EndOf, StepsOf;
    var w := ObjectWalk(g, s, id, limit);
    FirstObject(g, s, id, limit);
    IterateLeaves(g, w, limit, steps);
    if Sound(g, s) {
      ObjectTables(g, s, id, limit);
      IterateKeeps(g, {}, limit, w, steps);
    }
    if completed {
      AddedInGraph(g, s, Item(id, 0), limit);
      EndReached(g, w, limit, steps);
    } else {
      assert ObjectCut(g, s, s', id, limit, steps, firstHit || hit);
    }
  }

  lemma ObjectTables(g: Graph, s: State, id: U64, limit: Option<nat>)
    requires ClosedGraph(g) && id in g && Sound(g, s) && ObjectWalk(g, s, id, limit).s.heapEnd <= MAX_FILE_SIZE
    ensures Sound(g, ObjectWalk(g, s, id, limit).s)
    ensures Closed(g, s, []) ==> Closed(g, ObjectWalk(g, s, id, limit).s, ObjectWalk(g, s, id, limit).queue)
  {
    hide ClosedGraph, Visit, Added, Closed, Owned, Faithful, AllDescribed;
    var it := Item(id, 0);
    VisitKeepsOwned(g, s, it, limit);
    VisitKeepsFaithful(g, s, it, limit);
    VisitKeepsDescribed(g, s, it, limit);
    if Closed(g, s, []) {
      MoreAwaited(g, s, [it]);
      NextKeepsClosed(g, Walk(s, [it], false, map[]), limit);
      assert Next(g, Walk(s, [it], false, map[]), limit).queue == [] + Added(g, s, it, limit) == Added(g, s, it, limit);
    }
  }

  // ------------------------------------------------------------------
  // One stacktrace
  // ------------------------------------------------------------------

  /** What is asked for: the chain, its tracebacks, and the limits. */
  datatype Request = Request(excs: map<U64, Links>, chain: seq<U64>, tracebacks: Tracebacks, filters: seq<Str>,
                             maxFrames: Option<nat>, limit: Option<nat>)

  ghost predicate GoodRequest(g: Graph, r: Request) {
    && r.chain != [] && IsChain(r.excs, r.chain[0], r.chain) && |r.chain| < 0x1_0000_0000
    && (forall i :: 0 <= i < |r.chain| ==> r.chain[i] in g)
    && ClosedGraph(g) && TracebacksInGraph(g, r.tracebacks)
  }

  /** The run over the frames of the i-th exception. */
  function OrderFor(r: Request, i: nat): Order
    requires i < |r.chain|
  {
    if r.chain[i] in r.tracebacks then OrderOf(Traceback(r.tracebacks[r.chain[i]]), r.filters, r.maxFrames, r.limit)
    else Order([], r.filters, r.maxFrames, r.limit)
  }

  /** How many frames the stacktrace of the i-th exception has if nobody cancels. */
  function FramesFor(r: Request, i: nat): nat
    requires i < |r.chain|
  {
    Quota(OrderFor(r, i), 0)
  }

  predicate OverflowsAt(r: Request, i: nat)
    requires i < |r.chain|
  {
    Overflows(OrderFor(r, i), 0)
  }

  /**
   * Because of the i-th exception alone, the snapshot will be marked truncated: it has no frame to show, or
   * too many.
   */
  predicate Blemished(r: Request, i: nat)
    requires i < |r.chain|
  {
    OverflowsAt(r, i) || All(OrderFor(r, i)) == []
  }

  /** The stacktrace of the i-th exception: its links, and an honest share of its frames. */
  ghost predicate StackFor(r: Request, i: nat, st: Stack, seen: bool)
    requires i < |r.chain| && r.chain[i] in r.excs
  {
    var all := All(OrderFor(r, i));
    && InfoFor(r.excs, r.chain, i, st.info)
    && 0 < |st.frames| <= FramesFor(r, i) <= |all| && st.frames == all[..|st.frames|]
    && (!seen ==> |st.frames| == FramesFor(r, i))
    && (OverflowsAt(r, i) ==> st.truncated) && (st.truncated ==> seen || OverflowsAt(r, i))
    && (!st.truncated ==> st.frames == all)
  }

  /** Heap and tables after the i-th exception, if nobody cancels. */
  ghost function AfterException(g: Graph, s: State, r: Request, i: nat): State
    requires i < |r.chain|
  {
    TablesAfter(g, ObjectAfter(g, s, r.chain[i], r.limit), All(OrderFor(r, i))[..FramesFor(r, i)], r.limit)
  }

  /** One of the walks for the i-th exception comes upon the depth limit. */
  ghost predicate ExceptionHit(g: Graph, s: State, r: Request, i: nat)
    requires i < |r.chain|
  {
    || ObjectHit(g, s, r.chain[i], r.limit)
    || FramesHit(g, ObjectAfter(g, s, r.chain[i], r.limit), All(OrderFor(r, i))[..FramesFor(r, i)], r.limit)
  }

  ghost predicate NoStackOpen(s: State) {
    s.pending.Pending? && s.pending.open.NoStack?
  }

  /** The object of the exception and the locals of its frames can be looked up. */
  ghost predicate StackKnown(g: Graph, objects: map<U64, U64>, r: Request, st: Stack) {
    1 <= st.info.id <= |r.chain| && ObjectKnown(g, objects, r.chain[st.info.id - 1])
      && LocalsKnown(g, objects, st.frames)
  }

  /** How the stacktrace of one exception came out: `blemish` marks the snapshot truncated, `stop` ends the chain. */
  datatype Part = Part(blemish: bool, stop: bool)

  /** The records: at most one stacktrace more. */
  ghost predicate StackAdded(r: Request, i: nat, s: State, s': State, p: Part, seen: bool)
    requires i < |r.chain| && r.chain[i] in r.excs
  {
    && NoStackOpen(s) && NoStackOpen(s') && s'.committed == s.committed && s'.pending.timestamp == s.pending.timestamp
    && (s'.pending.stacks == s.pending.stacks
        || (|s'.pending.stacks| == |s.pending.stacks| + 1 && s.pending.stacks <= s'.pending.stacks
            && StackFor(r, i, s'.pending.stacks[|s.pending.stacks|], seen)))
    && (!seen ==> (s'.pending.stacks != s.pending.stacks <==> FramesFor(r, i) > 0))
    && (p.blemish <==> seen || Blemished(r, i)) && (p.stop <==> seen || OverflowsAt(r, i))
  }

  /** Heap and tables: nothing of the new stacktrace dangles. */
  ghost predicate ObjectsAdded(g: Graph, r: Request, i: nat, s: State, s': State, seen: bool, cut: bool)
    requires i < |r.chain| && NoStackOpen(s) && NoStackOpen(s')
  {
    && s.objects.Keys <= s'.objects.Keys && ObjectKnown(g, s'.objects, r.chain[i])
    && (Sound(g, s) ==> Sound(g, s'))
    && (Whole(g, s) && !cut ==> Whole(g, s'))
    && (|s'.pending.stacks| == |s.pending.stacks| + 1 ==>
          && (Sound(g, s) ==> StackKnown(g, s'.objects, r, s'.pending.stacks[|s.pending.stacks|]))
          && (!seen ==> s'.pending.stacks[|s.pending.stacks|].depthTruncated == ExceptionHit(g, s, r, i)))
    && (!seen ==> s' == AfterException(g, s, r, i).(pending := s'.pending))
  }

  ghost predicate ExceptionCaptured(g: Graph, r: Request, i: nat, s: State, s': State, p: Part, seen: bool, cut: bool)
    requires i < |r.chain| && r.chain[i] in r.excs
  {
    (cut ==> seen) && StackAdded(r, i, s, s', p, seen) && ObjectsAdded(g, r, i, s, s', seen, cut)
  }

  /** A call for the i-th exception was next, and there was no room for it. */
  ghost predicate StarvedAt(w: SnapshotWriter, g: Graph, r: Request, i: nat, since: nat)
    requires i < |r.chain|
    reads w, w.mem
  {
    || LacksRecord(w, g, {r.chain[i]}, since) || GaveOut(w, g, All(OrderFor(r, i)), since)
    || (exists info ::
        r.chain[i] in r.excs && InfoFor(r.excs, r.chain, i, info) && w.Lacks(Op.BeginStacktrace(info), since))
  }

  /** The records of the i-th exception. */
  function ExceptionBytes(r: Request, i: nat): nat
    requires i < |r.chain|
  {
    STACKTRACE_HEADER_SIZE + |Cat(EncFrame, All(OrderFor(r, i)))|
  }

  /** The looks for the i-th exception: one for each object of its walk, one behind it, and those of its frames. */
  ghost function ExceptionLooks(g: Graph, s: State, r: Request, i: nat): nat
    requires i < |r.chain|
  {
    StepsOf(g, ObjectWalk(g, s, r.chain[i], r.limit), r.limit) + 1
      + StackLooks(g, ObjectAfter(g, s, r.chain[i], r.limit), r, i)
  }

  ghost function StackLooks(g: Graph, s: State, r: Request, i: nat): nat
    requires i < |r.chain|
  {
    if r.chain[i] in r.tracebacks then LooksFor(g, s, OrderFor(r, i), 0) else 0
  }

  /** The frames of an open stacktrace, if its exception has a traceback. */
  method WriteEntries(w: SnapshotWriter, g: Graph, r: Request, i: nat, cancel: CancelFlag)
    returns (o: Outcome, f: Frames)
    requires w.Valid() && w.initialized && HasOpenStack(w.st) && w.st.pending.open.frames == []
    requires i < |r.chain| && ClosedGraph(g) && TracebacksInGraph(g, r.tracebacks)
    requires cancel.Valid() && !cancel.Seen() && !cancel.cut
    modifies w, w.mem, w.reader, cancel
    ensures Carried(w) && HasOpenStack(w.st) && w.st.committed == old(w.st).committed && cancel.Valid()
    ensures o.Done? ==> FramesCaptured(g, old(w.st), w.st, OrderFor(r, i), f, cancel.Seen(), cancel.cut)
    ensures o.Done? ==> cancel.Looked(StackLooks(g, old(w.st), r, i))
    ensures o.Done? ==> Spent(g, old(w.st), old(w.heapStart), w.st, w.heapStart, |Cat(EncFrame, All(OrderFor(r, i)))|)
    ensures o.Failed? ==> o == Failed(OutOfSpace) && GaveOut(w, g, All(OrderFor(r, i)), old(w.attempts))
    ensures o.Failed? ==>
      NoRoom(w, old(w.attempts), Room(g, old(w.st), old(w.heapStart), |Cat(EncFrame, All(OrderFor(r, i)))|))
  {
    hide Inv, Growth, ClosedGraph, FramesCaptured, TracebacksInGraph, Unfiltered, GaveOut, LooksFor, Spent, Room,
         NoRoom, Cat, EncFrame, SnapshotWriter.Valid;
    o, f := Done, Frames(false, false);
    var exc := r.chain[i];
    if exc in r.tracebacks {
      TracebackInGraph(g, r.tracebacks, exc);
      o, f := WriteTracebackFrames(w, g, r.tracebacks[exc], r.filters, r.maxFrames, r.limit, cancel);
    } else {
      NoFrames(g, w.st, OrderFor(r, i));
      NothingToWrite(g, w.st, w.heapStart, r.filters, r.maxFrames, r.limit);
    }
  }

  /** Close the stacktrace, or drop it if it has no frames. */
  method CloseStack(w: SnapshotWriter, g: Graph, f: Frames, hit: bool) returns (p: Part)
    requires w.Valid() && w.initialized && HasOpenStack(w.st)
    modifies w, w.mem
    ensures w.Valid() && w.initialized && w.reader == old(w.reader) && w.mem == old(w.mem)
    ensures old(w.attempts) <= w.attempts
    ensures w.heapStart == old(w.heapStart) && w.st.committed == old(w.st).committed
    ensures Closes(old(w.st), w.st, f.truncated, hit)
    ensures p == Part(old(w.st).pending.open.frames == [] || f.truncated, f.truncated)
    ensures Bill(g, w.st) <= Bill(g, old(w.st)) && HeapBill(g, w.st) == HeapBill(g, old(w.st))
  {
    hide Inv, Growth, Stepped, Bill, HeapBill;
    ghost var s3 := w.st;
    FramesCounted(w);
    if w.currentFrameCount == 0 {
      w.DiscardCurrentStacktrace();
      StackDropped(s3, w.st);
      DroppedBill(g, s3, w.st);
      p := Part(true, f.truncated);
    } else {
      var o := w.EndStacktrace(f.truncated, hit);
      ChainStackEnded(s3, f.truncated, hit, w.st, o);
      EndedBill(g, s3, f.truncated, hit, w.st);
      p := Part(f.truncated, f.truncated);
    }
  }

  lemma DroppedBill(g: Graph, s: State, s': State)
    requires HasOpenStack(s) && s' == s.(pending := s.pending.(open := NoStack))
    ensures Bill(g, s') <= Bill(g, s) && HeapBill(g, s') == HeapBill(g, s)
  {
    hide HeapBytes, LogSize;
  }

  /** The frames of an open stacktrace, which is then closed, or dropped if it has none. */
  method WriteStack(w: SnapshotWriter, g: Graph, r: Request, i: nat, objectHit: bool, cancel: CancelFlag)
    returns (o: Outcome, p: Part, ghost f: Frames, ghost s3: State)
    requires w.Valid() && w.initialized && HasOpenStack(w.st) && w.st.pending.open.frames == []
    requires i < |r.chain| && ClosedGraph(g) && TracebacksInGraph(g, r.tracebacks)
    requires cancel.Valid() && !cancel.Seen() && !cancel.cut
    modifies w, w.mem, w.reader, cancel
    ensures w.Valid() && w.initialized && w.reader == old(w.reader) && (w.mem == old(w.mem) || fresh(w.mem))
    ensures old(w.attempts) <= w.attempts
    ensures w.st.committed == old(w.st).committed && cancel.Valid()
    ensures o.Done? ==>
      && FramesCaptured(g, old(w.st), s3, OrderFor(r, i), f, cancel.Seen(), cancel.cut) && HasOpenStack(s3)
      && Closes(s3, w.st, f.truncated, objectHit || f.hit)
         && p == Part(s3.pending.open.frames == [] || f.truncated, f.truncated)
    ensures o.Done? ==> cancel.Looked(StackLooks(g, old(w.st), r, i))
    ensures o.Done? ==> Spent(g, old(w.st), old(w.heapStart), w.st, w.heapStart, |Cat(EncFrame, All(OrderFor(r, i)))|)
    ensures o.Failed? ==> o == Failed(OutOfSpace) && GaveOut(w, g, All(OrderFor(r, i)), old(w.attempts))
    ensures o.Failed? ==>
      NoRoom(w, old(w.attempts), Room(g, old(w.st), old(w.heapStart), |Cat(EncFrame, All(OrderFor(r, i)))|))
  {
    hide Inv, Growth, ClosedGraph, FramesCaptured, TracebacksInGraph, Unfiltered, GaveOut, StackLooks, Room, NoRoom,
         Cat, EncFrame, Bill, HeapBill, Closes, SnapshotWriter.Valid;
    p := Part(true, true);
    var result;
    o, result := WriteEntries(w, g, r, i, cancel);
    f, s3 := result, w.st;
    if o.Failed? {
      return;
    }
    p := CloseStack(w, g, result, objectHit || result.hit);
  }

  method CaptureException(w: SnapshotWriter, g: Graph, r: Request, ids: map<U64, U64>, i: nat, cancel: CancelFlag)
    returns (o: Outcome, p: Part)
    requires w.Valid() && w.initialized && NoStackOpen(w.st) && GoodRequest(g, r) && i < |r.chain|
    requires (forall e :: e in ids <==> e in r.chain) && forall j :: 0 <= j < |r.chain| ==> ids[r.chain[j]] == j + 1
    requires cancel.Valid() && !cancel.Seen() && !cancel.cut
    modifies w, w.mem, w.reader, cancel
    ensures w.Valid() && w.initialized && w.reader == old(w.reader) && (w.mem == old(w.mem) || fresh(w.mem))
    ensures old(w.attempts) <= w.attempts
    ensures w.st.committed == old(w.st).committed && cancel.Valid()
    ensures o.Done? ==>
      ChainInGraph(g, r, i) && ExceptionCaptured(g, r, i, old(w.st), w.st, p, cancel.Seen(), cancel.cut)
    ensures o.Done? ==> cancel.Looked(ExceptionLooks(g, old(w.st), r, i))
    ensures o.Done? ==> Spent(g, old(w.st), old(w.heapStart), w.st, w.heapStart, ExceptionBytes(r, i))
    ensures o.Failed? ==> o == Failed(OutOfSpace) && StarvedAt(w, g, r, i, old(w.attempts))
    ensures o.Failed? ==> NoRoom(w, old(w.attempts), Room(g, old(w.st), old(w.heapStart), ExceptionBytes(r, i)))
  {
    hide Inv, Growth, ClosedGraph, TracebacksInGraph, IsChain, ExceptionCaptured, ObjectCaptured, StarvedAt,
         LacksRecord, StepsOf, ObjectWalk, StackLooks, ObjectAfter, Spent, Room, ExceptionBytes, SnapshotWriter.Valid;
    ghost var s, hs, since := w.st, w.heapStart, w.attempts;
    var exc := r.chain[i];
    InChain(g, r, i);
    p := Part(true, true);
    var completed, hit;
    o, completed, hit := CaptureObject(w, g, exc, r.limit, cancel);
    MoreRoom(g, s, hs, 0, ExceptionBytes(r, i));
    if o.Failed? {
      ObjectStarved(w, g, r, i, since);
      return;
    }
    ghost var s1, h1, since1 := w.st, w.heapStart, w.attempts;
    var cancelRequested := cancel.IsRequested();
    if cancelRequested {
      // skip this stacktrace
      LeftOut(g, r, i, s, s1, completed, hit, cancel.cut);
      SpentMore(g, s, hs, s1, h1, 0, ExceptionBytes(r, i));
      return;
    }
    ObjectAfterwards(g, s, s1, exc, r.limit, hit);
    RoomFromStart(g, s, hs, s1, h1, 0, ExceptionBytes(r, i));
    o, p := CaptureTraceback(w, g, r, ids, i, s, hit, cancel);
    if o.Failed? {
      StarvedBefore(w, g, r, i, since1, since);
    } else {
      SpentFurther(g, s, hs, s1, h1, w.st, w.heapStart, 0, ExceptionBytes(r, i));
    }
  }

  lemma ObjectAfterwards(g: Graph, s: State, s1: State, id: U64, limit: Option<nat>, hit: bool)
    requires ObjectCaptured(g, s, s1, id, limit, true, hit)
    ensures s1 == ObjectAfter(g, s, id, limit)
  {
    hide Sound, Closed, ObjectAfter, ObjectHit;
  }

  lemma ObjectStarved(w: SnapshotWriter, g: Graph, r: Request, i: nat, since: nat)
    requires i < |r.chain| && LacksRecord(w, g, {r.chain[i]}, since)
    ensures StarvedAt(w, g, r, i, since)
  {
    hide LacksRecord;
  }

  lemma StarvedBefore(w: SnapshotWriter, g: Graph, r: Request, i: nat, since: nat, since0: nat)
    requires i < |r.chain| && StarvedAt(w, g, r, i, since) && since0 <= since
    ensures StarvedAt(w, g, r, i, since0)
  {
    hide LacksRecord, GaveOut, InfoFor, SnapshotWriter.Lacks;
    if LacksRecord(w, g, {r.chain[i]}, since) {
      LackedBefore(w, g, {r.chain[i]}, since, since0);
    } else if GaveOut(w, g, All(OrderFor(r, i)), since) {
      GaveOutBefore(w, g, All(OrderFor(r, i)), since, since0);
    } else {
      var info :| r.chain[i] in r.excs && InfoFor(r.excs, r.chain, i, info) && w.Lacks(Op.BeginStacktrace(info), since);
      LacksBefore(w, Op.BeginStacktrace(info), since, since0);
    }
  }

  lemma SpentMore(g: Graph, s: State, h: nat, s': State, h': nat, bytes: nat, bytes': nat)
    requires Spent(g, s, h, s', h', bytes) && bytes <= bytes'
    ensures Spent(g, s, h, s', h', bytes')
  {
    hide Bill, HeapBill;
  }

  /** The stacktrace of an exception whose object has been captured. */
  method CaptureTraceback(w: SnapshotWriter, g: Graph, r: Request, ids: map<U64, U64>, i: nat, ghost s: State,
                          hit: bool, cancel: CancelFlag)
    returns (o: Outcome, p: Part)
    requires w.Valid() && w.initialized && NoStackOpen(s) && GoodRequest(g, r) && ChainInGraph(g, r, i)
    requires ObjectCaptured(g, s, w.st, r.chain[i], r.limit, true, hit)
    requires (forall e :: e in ids <==> e in r.chain) && forall j :: 0 <= j < |r.chain| ==> ids[r.chain[j]] == j + 1
    requires cancel.Valid() && !cancel.Seen() && !cancel.cut
    modifies w, w.mem, w.reader, cancel
    ensures w.Valid() && w.initialized && w.reader == old(w.reader) && (w.mem == old(w.mem) || fresh(w.mem))
    ensures old(w.attempts) <= w.attempts
    ensures w.st.committed == old(w.st).committed && cancel.Valid()
    ensures o.Done? ==> ExceptionCaptured(g, r, i, s, w.st, p, cancel.Seen(), cancel.cut)
    ensures o.Done? ==> cancel.Looked(StackLooks(g, old(w.st), r, i))
    ensures o.Done? ==> Spent(g, old(w.st), old(w.heapStart), w.st, w.heapStart, ExceptionBytes(r, i))
    ensures o.Failed? ==> o == Failed(OutOfSpace) && StarvedAt(w, g, r, i, old(w.attempts))
    ensures o.Failed? ==> NoRoom(w, old(w.attempts), Room(g, old(w.st), old(w.heapStart), ExceptionBytes(r, i)))
  {
    hide Inv, Growth, ClosedGraph, FramesCaptured, InfoFor, TracebacksInGraph, GoodRequest, ExceptionCaptured,
         ObjectCaptured, GaveOut, StarvedAt, StackLooks, Spent, Room, Cat, OrderFor, All, Closes, SnapshotWriter.Valid;
    ghost var s1, h1, since1, body := w.st, w.heapStart, w.attempts, |Cat(EncFrame, All(OrderFor(r, i)))|;
    p := Part(true, true);
    GoodSo(g, r);
    ObjectLeaves(g, s, s1, r.chain[i], r.limit, hit);
    ghost var info;
    o, info := OpenTrace(w, g, r, ids, i);
    MoreRoom(g, s1, h1, STACKTRACE_HEADER_SIZE, STACKTRACE_HEADER_SIZE + body);
    if o.Failed? {
      return;
    }
    ghost var s2, h2, since2 := w.st, w.heapStart, w.attempts;
    StackLooksApart(g, s1, s2, r, i);
    ghost var f, s3;
    o, p, f, s3 := WriteStack(w, g, r, i, hit, cancel);
    RoomFromStart(g, s1, h1, s2, h2, STACKTRACE_HEADER_SIZE, body);
    if o.Failed? {
      FramesStarved(w, g, r, i, since2, since1);
      return;
    }
    SpentFurther(g, s1, h1, s2, h2, w.st, w.heapStart, STACKTRACE_HEADER_SIZE, body);
    CapturedSo(g, r, i, s, s1, s2, s3, w.st, info, hit, f, p, cancel.Seen(), cancel.cut);
  }

  lemma FramesStarved(w: SnapshotWriter, g: Graph, r: Request, i: nat, since: nat, since0: nat)
    requires i < |r.chain| && GaveOut(w, g, All(OrderFor(r, i)), since) && since0 <= since
    ensures StarvedAt(w, g, r, i, since0)
  {
    hide GaveOut, LacksRecord, InfoFor, SnapshotWriter.Lacks, All, OrderFor;
    GaveOutBefore(w, g, All(OrderFor(r, i)), since, since0);
  }

  /** Begin the stacktrace of an exception, with its links. */
  method OpenTrace(w: SnapshotWriter, g: Graph, r: Request, ids: map<U64, U64>, i: nat)
    returns (o: Outcome, ghost info: StackInfo)
    requires w.Valid() && w.initialized && NoStackOpen(w.st) && i < |r.chain| < 0x1_0000_0000 && r.chain[i] in r.excs
    requires (forall e :: e in ids <==> e in r.chain) && forall j :: 0 <= j < |r.chain| ==> ids[r.chain[j]] == j + 1
    modifies w, w.mem, w.reader
    ensures w.Valid() && w.initialized && w.reader == old(w.reader) && (w.mem == old(w.mem) || fresh(w.mem))
    ensures old(w.attempts) <= w.attempts
    ensures o.Done? ==> InfoFor(r.excs, r.chain, i, info) && w.st == WithStack(old(w.st), info)
    ensures o.Done? ==> Spent(g, old(w.st), old(w.heapStart), w.st, w.heapStart, STACKTRACE_HEADER_SIZE)
    ensures o.Failed? ==> w.st == old(w.st) && o == Failed(OutOfSpace) && StarvedAt(w, g, r, i, old(w.attempts))
    ensures o.Failed? ==> NoRoom(w, old(w.attempts), Room(g, old(w.st), old(w.heapStart), STACKTRACE_HEADER_SIZE))
  {
    hide Inv, Growth, InfoFor, GaveOut, Spent, Room, LacksRecord, SnapshotWriter.Valid, SnapshotWriter.Lacks;
    var links := InfoOf(r.excs, r.chain, ids, i);
    info := links;
    InfoPlain(r, i, info);
    o := OpenFirstStack(w, g, links);
  }

  lemma GoodSo(g: Graph, r: Request)
    requires GoodRequest(g, r)
    ensures |r.chain| < 0x1_0000_0000 && ClosedGraph(g) && TracebacksInGraph(g, r.tracebacks)
  {
    hide ClosedGraph, TracebacksInGraph, IsChain;
  }

  lemma ObjectLeaves(g: Graph, s: State, s1: State, id: U64, limit: Option<nat>, hit: bool)
    requires ObjectCaptured(g, s, s1, id, limit, true, hit)
    ensures s1.pending == s.pending && s1.committed == s.committed
  {
    hide Sound, Closed, ObjectAfter, ObjectHit;
  }

  /** The ids of a chain are small, so the writer takes them as they are, and a stacktrace has no thread name. */
  lemma InfoPlain(r: Request, i: nat, info: StackInfo)
    requires i < |r.chain| < 0x1_0000_0000 && r.chain[i] in r.excs && InfoFor(r.excs, r.chain, i, info)
    ensures SelfLinked(info) == info && info.threadName == []
  {
  }

  lemma StackLooksApart(g: Graph, s: State, s1: State, r: Request, i: nat)
    requires s1 == s.(pending := s1.pending) && i < |r.chain|
    ensures StackLooks(g, s1, r, i) == StackLooks(g, s, r, i)
  {
    hide LooksFor;
    LooksFromBegun(g, s, s1, OrderFor(r, i));
  }

  ghost predicate ChainInGraph(g: Graph, r: Request, i: nat) {
    i < |r.chain| && r.chain[i] in r.excs && r.chain[i] in g
  }

  lemma InChain(g: Graph, r: Request, i: nat)
    requires GoodRequest(g, r) && i < |r.chain|
    ensures ChainInGraph(g, r, i)
  {
  }

  lemma TracebackInGraph(g: Graph, tracebacks: Tracebacks, exc: U64)
    requires TracebacksInGraph(g, tracebacks) && exc in tracebacks
    ensures LocalsInGraph(g, tracebacks[exc])
  {
  }

  lemma LeftOut(g: Graph, r: Request, i: nat, s: State, s1: State, completed: bool, hit: bool, cut: bool)
    requires ChainInGraph(g, r, i) && NoStackOpen(s) && ObjectCaptured(g, s, s1, r.chain[i], r.limit, completed, hit)
    requires cut == !completed
    ensures ExceptionCaptured(g, r, i, s, s1, Part(true, true), true, cut)
  {
    hide Sound, Closed, StackFor, Blemished, OverflowsAt, ObjectAfter, ObjectHit;
  }

  /** The log with the stacktrace of the i-th exception begun. */
  ghost function WithStack(s: State, info: StackInfo): State
    requires NoStackOpen(s)
  {
    s.(pending := s.pending.(open := OpenStack(info, [])))
  }

  lemma FramesLeave(g: Graph, s: State, s': State, order: Order, r: Frames, seen: bool, cut: bool)
    requires FramesCaptured(g, s, s', order, r, seen, cut)
    ensures HasOpenStack(s') && s'.committed == s.committed
  {
    hide Sound, Closed, LocalsKnown, FramesHit, TablesAfter;
  }

  lemma ChainStackEnded(s: State, truncated: bool, hit: bool, s': State, o: Outcome)
    requires HasOpenStack(s) && Stepped(s, Op.EndStacktrace(truncated, hit), s', o)
    ensures o.Done?
    ensures
      var st := Stack(s.pending.open.info, truncated, hit, s.pending.open.frames);
      s' == s.(pending := s.pending.(stacks := s.pending.stacks + [st], open := NoStack))
  {
  }

  /** The log when the stacktrace has been closed, or dropped because it has no frames. */
  ghost predicate Closes(s3: State, s4: State, truncated: bool, hit: bool)
    requires HasOpenStack(s3)
  {
    if s3.pending.open.frames == [] then s4 == s3.(pending := s3.pending.(open := NoStack))
    else
      var st := Stack(s3.pending.open.info, truncated, hit, s3.pending.open.frames);
      s4 == s3.(pending := s3.pending.(stacks := s3.pending.stacks + [st], open := NoStack))
  }

  lemma CapturedSo(g: Graph, r: Request, i: nat, s: State, s1: State, s2: State, s3: State, s4: State, info: StackInfo,
                   objectHit: bool, f: Frames, p: Part, seen: bool, cut: bool)
    requires ChainInGraph(g, r, i) && NoStackOpen(s) && ObjectCaptured(g, s, s1, r.chain[i], r.limit, true, objectHit)
    requires InfoFor(r.excs, r.chain, i, info) && NoStackOpen(s1) && s2 == WithStack(s1, info)
    requires FramesCaptured(g, s2, s3, OrderFor(r, i), f, seen, cut)
    requires HasOpenStack(s3) && Closes(s3, s4, f.truncated, objectHit || f.hit)
    requires p == Part(s3.pending.open.frames == [] || f.truncated, f.truncated)
    ensures ExceptionCaptured(g, r, i, s, s4, p, seen, cut)
  {
    hide Sound, Closed, InfoFor, LocalsKnown, FramesKept, Grown, ObjectCaptured, StackAdded, ObjectsAdded, Closes;
    FramesLeave(g, s2, s3, OrderFor(r, i), f, seen, cut);
    assert KeptFrames(s2, s3) == s3.pending.open.frames;
    StackAddedSo(g, r, i, s, s1, s2, s3, s4, info, objectHit, f, p, seen);
    ObjectsAddedSo(g, r, i, s, s1, s2, s3, s4, info, objectHit, f, seen, cut);
  }

  /** Without a blemish an exception shows all its frames. */
  lemma QuotaIsAll(order: Order)
    ensures !Overflows(order, 0) ==> Quota(order, 0) == |All(order)|
    ensures Quota(order, 0) == 0 ==> All(order) == [] || Overflows(order, 0)
  {
    if order.frames != [] {
      var n := |order.frames| - 1;
      UnfilteredNext(order.frames, order.filters, n);
      assert order.frames[..n + 1] == order.frames;
    }
  }

  /** The frames of a stacktrace that had none. */
  lemma FreshFrames(s2: State, s3: State, order: Order, truncated: bool, seen: bool)
    requires FramesKept(s2, s3, order, truncated, seen) && s2.pending.open.frames == []
    ensures
      var frames := s3.pending.open.frames;
      && s3.pending == s2.pending.(open := s2.pending.open.(frames := frames))
      && |frames| <= Quota(order, 0) <= |All(order)| && frames == All(order)[..|frames|]
      && (!seen ==> |frames| == Quota(order, 0)) && (truncated <==> seen || Overflows(order, 0))
  {
    hide Unfiltered, Overflows, Quota;
    var frames := s3.pending.open.frames;
    assert [] + All(order)[..|frames|] == All(order)[..|frames|];
  }

  lemma StackAddedSo(g: Graph, r: Request, i: nat, s: State, s1: State, s2: State, s3: State, s4: State,
                     info: StackInfo, objectHit: bool, f: Frames, p: Part, seen: bool)
    requires ChainInGraph(g, r, i) && NoStackOpen(s) && ObjectCaptured(g, s, s1, r.chain[i], r.limit, true, objectHit)
    requires InfoFor(r.excs, r.chain, i, info) && NoStackOpen(s1) && s2 == WithStack(s1, info)
    requires FramesKept(s2, s3, OrderFor(r, i), f.truncated, seen) && s3.committed == s2.committed
    requires HasOpenStack(s3) && Closes(s3, s4, f.truncated, objectHit || f.hit)
    requires p == Part(s3.pending.open.frames == [] || f.truncated, f.truncated)
    ensures NoStackOpen(s4) && StackAdded(r, i, s, s4, p, seen)
  {
    hide ObjectCaptured, InfoFor, Quota, Overflows, Unfiltered, OrderFor, FramesKept, StackFor;
    var order, frames := OrderFor(r, i), s3.pending.open.frames;
    ObjectLeaves(g, s, s1, r.chain[i], r.limit, objectHit);
    FreshFrames(s2, s3, order, f.truncated, seen);
    QuotaIsAll(order);
    if frames != [] {
      var st := Stack(s3.pending.open.info, f.truncated, objectHit || f.hit, frames);
      assert s4.pending.stacks == s.pending.stacks + [st];
      StackForSo(r, i, st, seen);
    }
  }

  lemma StackForSo(r: Request, i: nat, st: Stack, seen: bool)
    requires i < |r.chain| && r.chain[i] in r.excs && InfoFor(r.excs, r.chain, i, st.info) && st.frames != []
    requires
      var order := OrderFor(r, i);
      && |st.frames| <= Quota(order, 0) <= |All(order)| && st.frames == All(order)[..|st.frames|]
      && (!seen ==> |st.frames| == Quota(order, 0)) && (st.truncated <==> seen || Overflows(order, 0))
    ensures StackFor(r, i, st, seen)
  {
    hide InfoFor, Quota, Overflows, Unfiltered, OrderFor;
    var order := OrderFor(r, i);
    QuotaIsAll(order);
    assert All(order)[..|All(order)|] == All(order);
  }

  lemma ObjectsAddedSo(g: Graph, r: Request, i: nat, s: State, s1: State, s2: State, s3: State, s4: State,
                       info: StackInfo, objectHit: bool, f: Frames, seen: bool, cut: bool)
    requires ChainInGraph(g, r, i) && NoStackOpen(s) && ObjectCaptured(g, s, s1, r.chain[i], r.limit, true, objectHit)
    requires InfoFor(r.excs, r.chain, i, info) && NoStackOpen(s1) && s2 == WithStack(s1, info) && NoStackOpen(s4)
    requires FramesKept(s2, s3, OrderFor(r, i), f.truncated, seen)
    requires Grown(g, s2, s3, s3.pending.open.frames, r.limit, f.hit, cut) && (cut ==> seen)
    requires HasOpenStack(s3) && Closes(s3, s4, f.truncated, objectHit || f.hit)
    ensures ObjectsAdded(g, r, i, s, s4, seen, cut)
  {
    hide Sound, Whole, OrderFor, ObjectCaptured, Grown, LocalsKnown, FramesKept, InfoFor, ObjectKnown, ExceptionHit,
         AfterException, StackKnown, All, Quota, Overflows, Closes;
    var frames := s3.pending.open.frames;
    ObjectLeaves(g, s, s1, r.chain[i], r.limit, objectHit);
    FreshFrames(s2, s3, OrderFor(r, i), f.truncated, seen);
    LastStack(s, s1, s2, s3, s4, info, f.truncated, objectHit || f.hit);
    TablesAdded(g, s, s1, s2, s3, s4, r.chain[i], r.limit, objectHit, frames, f.hit, cut);
    if !seen {
      AfterwardsSo(g, r, i, s, s1, s2, s3, objectHit, f.hit);
    }
    if frames != [] && Sound(g, s) {
      InfoId(r, i, info);
      StackKnownSo(g, s4.objects, r, i, s4.pending.stacks[|s.pending.stacks|]);
    }
  }

  lemma LastStack(s: State, s1: State, s2: State, s3: State, s4: State, info: StackInfo, truncated: bool, hit: bool)
    requires NoStackOpen(s1) && s1.pending == s.pending && s2 == WithStack(s1, info)
    requires HasOpenStack(s3) && s3.pending == s2.pending.(open := s2.pending.open.(frames := s3.pending.open.frames))
    requires Closes(s3, s4, truncated, hit)
    ensures s4 == s3.(pending := s4.pending) && s4.pending.Pending?
    ensures
      if s3.pending.open.frames == [] then s4.pending.stacks == s.pending.stacks
      else s4.pending.stacks == s.pending.stacks + [Stack(info, truncated, hit, s3.pending.open.frames)]
  {
  }

  lemma StackKnownSo(g: Graph, objects: map<U64, U64>, r: Request, i: nat, st: Stack)
    requires i < |r.chain| && st.info.id == i + 1 && ObjectKnown(g, objects, r.chain[i])
    requires LocalsKnown(g, objects, st.frames)
    ensures StackKnown(g, objects, r, st)
  {
    hide ObjectKnown, LocalsKnown;
  }

  /** What becomes of the tables when an object and the frames of its stacktrace have been captured. */
  lemma TablesAdded(g: Graph, s: State, s1: State, s2: State, s3: State, s4: State, id: U64, limit: Option<nat>,
                    objectHit: bool, frames: seq<Frame>, hit: bool, cut: bool)
    requires ObjectCaptured(g, s, s1, id, limit, true, objectHit) && s2 == s1.(pending := s2.pending)
    requires Grown(g, s2, s3, frames, limit, hit, cut) && s4 == s3.(pending := s4.pending)
    ensures s.objects.Keys <= s4.objects.Keys && ObjectKnown(g, s4.objects, id)
    ensures Sound(g, s) ==> Sound(g, s4) && LocalsKnown(g, s4.objects, frames)
    ensures Whole(g, s) && !cut ==> Whole(g, s4)
  {
    hide Sound, Closed, LocalsKnown, ObjectKnown, ObjectAfter, ObjectHit, TablesAfter, FramesHit, ObjectCut;
    SameTables(g, s1, s2, []);
    SameTables(g, s3, s4, []);
    StaysKnown(g, s1.objects, s4.objects, id);
  }

  /** If nobody cancels, heap and tables are determined, and so is the depth flag. */
  lemma AfterwardsSo(g: Graph, r: Request, i: nat, s: State, s1: State, s2: State, s3: State, objectHit: bool,
                     hit: bool)
    requires i < |r.chain| && ObjectCaptured(g, s, s1, r.chain[i], r.limit, true, objectHit)
    requires s2 == s1.(pending := s2.pending)
    requires HasOpenStack(s3) && s3.pending.open.frames == All(OrderFor(r, i))[..FramesFor(r, i)]
    requires Grown(g, s2, s3, s3.pending.open.frames, r.limit, hit, false)
    ensures s3 == AfterException(g, s, r, i).(pending := s3.pending) && (objectHit || hit) == ExceptionHit(g, s, r, i)
  {
    hide Sound, Closed, LocalsKnown, ObjectKnown, ObjectAfter, ObjectHit, TablesAfter, FramesHit, ObjectCut, OrderFor,
         All, Quota;
    FromBegun(g, s1, s2, s3.pending.open.frames, r.limit);
  }

  lemma StaysKnown(g: Graph, objects: map<U64, U64>, objects': map<U64, U64>, id: U64)
    requires ObjectKnown(g, objects, id) && objects.Keys <= objects'.Keys
    ensures ObjectKnown(g, objects', id)
  {
    hide Unreadable;
    if id in objects {
      assert id in objects.Keys;
    }
  }

  lemma InfoId(r: Request, i: nat, info: StackInfo)
    requires i < |r.chain| && r.chain[i] in r.excs && InfoFor(r.excs, r.chain, i, info)
    ensures info.id == i + 1
  {
  }

  // ------------------------------------------------------------------
  // The whole chain
  // ------------------------------------------------------------------

  /** Stacktraces of some of the first `n` exceptions, in the order of the chain. */
  ghost predicate StacksOf(r: Request, n: nat, stacks: seq<Stack>, seen: bool) {
    && n <= |r.chain|
    && (forall k :: 0 <= k < |stacks| ==> IsStackOf(r, n, stacks[k], seen))
    && (forall k, l :: 0 <= k < l < |stacks| ==> stacks[k].info.id < stacks[l].info.id)
  }

  ghost predicate IsStackOf(r: Request, n: nat, st: Stack, seen: bool) {
    1 <= st.info.id <= n <= |r.chain| && r.chain[st.info.id - 1] in r.excs && StackFor(r, st.info.id - 1, st, seen)
  }

  /** All of them, each with all its frames. */
  ghost predicate AllStacks(r: Request, n: nat, stacks: seq<Stack>) {
    |stacks| == n && forall k :: 0 <= k < n ==> stacks[k].info.id == k + 1 && !stacks[k].truncated
  }

  ghost predicate HasStack(stacks: seq<Stack>, i: nat) {
    exists k :: 0 <= k < |stacks| && stacks[k].info.id == i + 1
  }

  /** No exception before the i-th has more frames than the limit admits; that would end the chain. */
  ghost predicate Reached(r: Request, i: nat)
    requires i <= |r.chain|
  {
    forall j: nat :: j < i ==> !OverflowsAt(r, j)
  }

  /** If nobody cancels, exactly these exceptions have a stacktrace. */
  ghost predicate IsShown(r: Request, i: nat)
    requires i < |r.chain|
  {
    Reached(r, i) && FramesFor(r, i) > 0
  }

  ghost predicate AnyBlemish(r: Request, n: nat)
    requires n <= |r.chain|
  {
    exists i: nat :: i < n && Blemished(r, i)
  }

  /** Heap and tables after the first `i` exceptions, if nobody cancels. */
  ghost function ChainAfter(g: Graph, s: State, r: Request, i: nat): State
    requires i <= |r.chain|
  {
    if i == 0 then s else AfterException(g, ChainAfter(g, s, r, i - 1), r, i - 1)
  }

  ghost predicate DepthRight(g: Graph, s: State, r: Request, st: Stack) {
    1 <= st.info.id <= |r.chain|
      && st.depthTruncated == ExceptionHit(g, ChainAfter(g, s, r, st.info.id - 1), r, st.info.id - 1)
  }

  /** Every depth flag says whether a walk for that exception came upon the limit. */
  ghost predicate DepthsRight(g: Graph, s: State, r: Request, stacks: seq<Stack>) {
    forall k :: 0 <= k < |stacks| ==> DepthRight(g, s, r, stacks[k])
  }

  ghost predicate AllKnown(g: Graph, objects: map<U64, U64>, r: Request, stacks: seq<Stack>) {
    forall k :: 0 <= k < |stacks| ==> StackKnown(g, objects, r, stacks[k])
  }

  /** The records of a chain of which the first `i` exceptions have been dealt with. */
  ghost predicate StacksSoFar(r: Request, i: nat, stacks: seq<Stack>, truncated: bool) {
    && StacksOf(r, i, stacks, false) && Reached(r, i)
    && (forall k: nat :: k < i ==> (HasStack(stacks, k) <==> FramesFor(r, k) > 0))
    && (truncated <==> AnyBlemish(r, i))
    && (!truncated ==> AllStacks(r, i, stacks))
  }

  ghost predicate StacksDone(r: Request, stacks: seq<Stack>, truncated: bool, seen: bool) {
    && StacksOf(r, |r.chain|, stacks, seen)
    && (truncated <==> seen || AnyBlemish(r, |r.chain|))
    && (!seen ==> forall k: nat :: k < |r.chain| ==> (HasStack(stacks, k) <==> IsShown(r, k)))
    && (!truncated ==> AllStacks(r, |r.chain|, stacks))
  }

  lemma Distinguished(r: Request, n: nat, stacks: seq<Stack>, seen: bool)
    requires StacksOf(r, n, stacks, seen)
    ensures forall k :: 0 <= k < |stacks| ==> 1 <= stacks[k].info.id <= n
  {
    hide StackFor;
    forall k | 0 <= k < |stacks| ensures 1 <= stacks[k].info.id <= n {
      assert IsStackOf(r, n, stacks[k], seen);
    }
  }

  lemma WiderStacks(r: Request, n: nat, n': nat, stacks: seq<Stack>, seen: bool)
    requires StacksOf(r, n, stacks, false) && n <= n' <= |r.chain|
    ensures StacksOf(r, n', stacks, seen)
  {
    hide Quota, Overflows, Unfiltered, InfoFor;
    forall k | 0 <= k < |stacks| ensures IsStackOf(r, n', stacks[k], seen) {
      assert IsStackOf(r, n, stacks[k], false);
    }
  }

  lemma OneMoreStack(r: Request, i: nat, stacks: seq<Stack>, st: Stack, seen: bool)
    requires StacksOf(r, i, stacks, false) && i < |r.chain| && r.chain[i] in r.excs && StackFor(r, i, st, seen)
    ensures st.info.id == i + 1 && StacksOf(r, i + 1, stacks + [st], seen)
    ensures forall k: nat :: HasStack(stacks + [st], k) <==> HasStack(stacks, k) || k == i
  {
    hide StackFor, InfoFor;
    StackId(r, i, st, seen);
    WiderStacks(r, i, i + 1, stacks, seen);
    Distinguished(r, i, stacks, false);
    var more := stacks + [st];
    assert IsStackOf(r, i + 1, st, seen);
    forall k: nat ensures HasStack(more, k) <==> HasStack(stacks, k) || k == i {
      if HasStack(stacks, k) {
        var j :| 0 <= j < |stacks| && stacks[j].info.id == k + 1;
        assert more[j].info.id == k + 1;
      }
      if k == i {
        assert more[|stacks|].info.id == k + 1;
      }
    }
  }

  lemma StackId(r: Request, i: nat, st: Stack, seen: bool)
    requires i < |r.chain| && r.chain[i] in r.excs && StackFor(r, i, st, seen)
    ensures st.info.id == i + 1 && (st.truncated ==> seen || OverflowsAt(r, i))
  {
  }

  lemma NoStackFrom(r: Request, i: nat, stacks: seq<Stack>, k: nat)
    requires StacksOf(r, i, stacks, false) && i <= k
    ensures !HasStack(stacks, k)
  {
    Distinguished(r, i, stacks, false);
  }

  lemma AfterAdding(r: Request, i: nat, s: State, s': State, p: Part, seen: bool)
    requires i < |r.chain| && r.chain[i] in r.excs && NoStackOpen(s) && StacksOf(r, i, s.pending.stacks, false)
    requires StackAdded(r, i, s, s', p, seen)
    ensures NoStackOpen(s') && StacksOf(r, i + 1, s'.pending.stacks, seen)
    ensures forall k: nat :: k != i ==> (HasStack(s'.pending.stacks, k) <==> HasStack(s.pending.stacks, k))
    ensures !seen ==> (HasStack(s'.pending.stacks, i) <==> FramesFor(r, i) > 0)
    ensures !p.blemish && AllStacks(r, i, s.pending.stacks) ==> AllStacks(r, i + 1, s'.pending.stacks)
  {
    hide StackFor, Blemished, OverflowsAt, FramesFor;
    var before, after := s.pending.stacks, s'.pending.stacks;
    NoStackFrom(r, i, before, i);
    if after == before {
      WiderStacks(r, i, i + 1, before, seen);
      BlemishOf(r, i);
    } else {
      var st := after[|before|];
      assert after == before + [st];
      OneMoreStack(r, i, before, st, seen);
      StackId(r, i, st, seen);
      BlemishOf(r, i);
    }
  }

  lemma BlemishOf(r: Request, i: nat)
    requires i < |r.chain|
    ensures OverflowsAt(r, i) ==> Blemished(r, i)
    ensures FramesFor(r, i) == 0 ==> Blemished(r, i)
  {
    QuotaIsAll(OrderFor(r, i));
  }

  lemma StacksNext(r: Request, i: nat, s: State, s': State, truncated: bool, p: Part)
    requires i < |r.chain| && r.chain[i] in r.excs && NoStackOpen(s) && StacksSoFar(r, i, s.pending.stacks, truncated)
    requires StackAdded(r, i, s, s', p, false) && !p.stop
    ensures StacksSoFar(r, i + 1, s'.pending.stacks, truncated || p.blemish)
  {
    hide StackFor, Blemished, OverflowsAt, FramesFor, StacksOf, HasStack, AllStacks;
    AfterAdding(r, i, s, s', p, false);
  }

  lemma StacksComplete(r: Request, stacks: seq<Stack>, truncated: bool)
    requires StacksSoFar(r, |r.chain|, stacks, truncated)
    ensures StacksDone(r, stacks, truncated, false)
  {
    hide Blemished, OverflowsAt, FramesFor, StacksOf, HasStack, AllStacks;
  }

  lemma StacksCut(r: Request, i: nat, stacks: seq<Stack>, truncated: bool)
    requires i <= |r.chain| && StacksSoFar(r, i, stacks, truncated)
    ensures StacksDone(r, stacks, true, true)
  {
    hide Blemished, OverflowsAt, FramesFor, StacksOf, HasStack, AllStacks;
    WiderStacks(r, i, |r.chain|, stacks, true);
  }

  lemma StacksStop(r: Request, i: nat, s: State, s': State, truncated: bool, p: Part, seen: bool)
    requires i < |r.chain| && r.chain[i] in r.excs && NoStackOpen(s) && StacksSoFar(r, i, s.pending.stacks, truncated)
    requires StackAdded(r, i, s, s', p, seen) && p.stop
    ensures StacksDone(r, s'.pending.stacks, true, seen)
  {
    hide StackFor, Blemished, OverflowsAt, FramesFor, HasStack, AllStacks, IsStackOf;
    AfterAdding(r, i, s, s', p, seen);
    WidenSeen(r, i + 1, s'.pending.stacks, seen);
    BlemishOf(r, i);
    if !seen {
      forall k: nat | k < |r.chain| ensures HasStack(s'.pending.stacks, k) <==> IsShown(r, k) {
        if k > i {
          NoStackFrom(r, i, s.pending.stacks, k);
        }
      }
    }
  }

  lemma WidenSeen(r: Request, n: nat, stacks: seq<Stack>, seen: bool)
    requires StacksOf(r, n, stacks, seen) && n <= |r.chain|
    ensures StacksOf(r, |r.chain|, stacks, seen)
  {
    hide StackFor;
    forall k | 0 <= k < |stacks| ensures IsStackOf(r, |r.chain|, stacks[k], seen) {
      assert IsStackOf(r, n, stacks[k], seen);
    }
  }

  /** Heap and tables of a chain of which the first `i` exceptions have been dealt with. */
  ghost predicate TablesSoFar(g: Graph, r: Request, i: nat, s: State, s': State)
    requires i <= |r.chain| && NoStackOpen(s')
  {
    && (Sound(g, s) ==> Sound(g, s') && AllKnown(g, s'.objects, r, s'.pending.stacks))
    && (Whole(g, s) ==> Whole(g, s'))
    && s' == ChainAfter(g, s, r, i).(pending := s'.pending)
    && DepthsRight(g, s, r, s'.pending.stacks)
  }

  ghost predicate TablesDone(g: Graph, r: Request, s: State, s': State, seen: bool, cut: bool)
    requires NoStackOpen(s')
  {
    && (Sound(g, s) ==> Sound(g, s') && AllKnown(g, s'.objects, r, s'.pending.stacks))
    && (Whole(g, s) && !cut ==> Whole(g, s'))
    && (!seen ==> DepthsRight(g, s, r, s'.pending.stacks))
  }

  lemma StillKnown(g: Graph, objects: map<U64, U64>, objects': map<U64, U64>, r: Request, st: Stack)
    requires StackKnown(g, objects, r, st) && objects.Keys <= objects'.Keys
    ensures StackKnown(g, objects', r, st)
  {
    hide Unreadable;
    assert forall id :: id in objects ==> id in objects.Keys;
    var frames := st.frames;
    forall i, j | 0 <= i < |frames| && 0 <= j < |frames[i].locals|
      ensures
        var id := frames[i].locals[j].pythonId;
        id in objects' || (id in g && Unreadable(g[id]))
    {
      assert frames[i].locals[j].pythonId in objects || Unreadable(g[frames[i].locals[j].pythonId]);
    }
  }

  lemma KnownAfter(g: Graph, r: Request, i: nat, s: State, s': State, p: Part, seen: bool, cut: bool)
    requires i < |r.chain| && r.chain[i] in r.excs && StackAdded(r, i, s, s', p, seen)
    requires ObjectsAdded(g, r, i, s, s', seen, cut)
    requires Sound(g, s) && AllKnown(g, s.objects, r, s.pending.stacks)
    ensures AllKnown(g, s'.objects, r, s'.pending.stacks)
  {
    hide Sound, Closed, StackKnown, StackFor, ExceptionHit, AfterException, Blemished, OverflowsAt, FramesFor;
    var before, after := s.pending.stacks, s'.pending.stacks;
    forall k | 0 <= k < |after| ensures StackKnown(g, s'.objects, r, after[k]) {
      if k < |before| {
        assert after[k] == before[k];
        StillKnown(g, s.objects, s'.objects, r, before[k]);
      }
    }
  }

  lemma DepthsAfter(g: Graph, r: Request, i: nat, s0: State, s: State, s': State, p: Part, cut: bool)
    requires i < |r.chain| && r.chain[i] in r.excs && StackAdded(r, i, s, s', p, false)
    requires ObjectsAdded(g, r, i, s, s', false, cut)
    requires s == ChainAfter(g, s0, r, i).(pending := s.pending) && DepthsRight(g, s0, r, s.pending.stacks)
    ensures DepthsRight(g, s0, r, s'.pending.stacks)
    ensures s' == ChainAfter(g, s0, r, i + 1).(pending := s'.pending)
  {
    hide Sound, Closed, StackKnown, StackFor, ExceptionHit, AfterException, Blemished, OverflowsAt, FramesFor;
    var before, after, t := s.pending.stacks, s'.pending.stacks, ChainAfter(g, s0, r, i);
    PendingApart(g, t, s, r, i);
    forall k | 0 <= k < |after| ensures DepthRight(g, s0, r, after[k]) {
      if k < |before| {
        assert after[k] == before[k] && DepthRight(g, s0, r, before[k]);
      } else {
        StackId(r, i, after[k], false);
      }
    }
  }

  /** What is being written besides does not matter. */
  lemma PendingApart(g: Graph, t: State, s: State, r: Request, i: nat)
    requires i < |r.chain| && s == t.(pending := s.pending)
    ensures AfterException(g, s, r, i) == AfterException(g, t, r, i).(pending := s.pending)
    ensures ExceptionHit(g, s, r, i) == ExceptionHit(g, t, r, i)
  {
    hide EndOf, Visit, Added, Hits, TablesAfter, FramesHit, ObjectWalk;
    var id, limit := r.chain[i], r.limit;
    ObjectWalkPending(g, t, s, id, limit);
    EndPending(g, ObjectWalk(g, t, id, limit), limit, s.pending);
    EndLeaves(g, ObjectWalk(g, s, id, limit), limit);
    FromBegun(g, ObjectAfter(g, t, id, limit), ObjectAfter(g, s, id, limit), All(OrderFor(r, i))[..FramesFor(r, i)],
              limit);
  }

  lemma ObjectWalkPending(g: Graph, t: State, s: State, id: U64, limit: Option<nat>)
    requires s == t.(pending := s.pending)
    ensures ObjectWalk(g, s, id, limit) == WithPending(ObjectWalk(g, t, id, limit), s.pending)
    ensures ObjectWalk(g, s, id, limit).s.pending == s.pending
    ensures id in g ==> Hits(g, s, Item(id, 0), limit) == Hits(g, t, Item(id, 0), limit)
  {
    hide Visit, Added, Hits;
    if id in g {
      var w := Walk(t, [Item(id, 0)], false, map[]);
      NextPending(g, w, limit, s.pending);
      assert WithPending(w, s.pending) == Walk(s, [Item(id, 0)], false, map[]) && w.queue[1..] == [];
      assert [] + Added(g, s, Item(id, 0), limit) == Added(g, s, Item(id, 0), limit);
      assert [] + Added(g, t, Item(id, 0), limit) == Added(g, t, Item(id, 0), limit);
      assert Visit(g, s, Item(id, 0), limit) == Visit(g, t, Item(id, 0), limit).(pending := s.pending);
    } else {
      assert Walk(s, [], false, map[]) == WithPending(Walk(t, [], false, map[]), s.pending);
    }
  }

  lemma TablesNext(g: Graph, r: Request, i: nat, s0: State, s: State, s': State, p: Part)
    requires i < |r.chain| && r.chain[i] in r.excs && NoStackOpen(s) && TablesSoFar(g, r, i, s0, s)
    requires StackAdded(r, i, s, s', p, false) && ObjectsAdded(g, r, i, s, s', false, false)
    ensures TablesSoFar(g, r, i + 1, s0, s')
  {
    hide Sound, Closed, StackKnown, StackFor, ExceptionHit, AfterException, AllKnown, DepthsRight;
    DepthsAfter(g, r, i, s0, s, s', p, false);
    if Sound(g, s0) {
      KnownAfter(g, r, i, s, s', p, false, false);
    }
  }

  lemma TablesStop(g: Graph, r: Request, i: nat, s0: State, s: State, s': State, p: Part, seen: bool, cut: bool)
    requires i < |r.chain| && r.chain[i] in r.excs && NoStackOpen(s) && TablesSoFar(g, r, i, s0, s)
    requires StackAdded(r, i, s, s', p, seen) && ObjectsAdded(g, r, i, s, s', seen, cut)
    ensures TablesDone(g, r, s0, s', seen, cut)
  {
    hide Sound, Closed, StackKnown, StackFor, ExceptionHit, AfterException, AllKnown, DepthsRight;
    if !seen {
      DepthsAfter(g, r, i, s0, s, s', p, cut);
    }
    if Sound(g, s0) {
      KnownAfter(g, r, i, s, s', p, seen, cut);
    }
  }

  /** The first `i` exceptions have been dealt with, and nobody has cancelled. */
  ghost predicate Running(g: Graph, r: Request, i: nat, s: State, s': State, truncated: bool) {
    && i <= |r.chain| && NoStackOpen(s) && NoStackOpen(s') && s'.committed == s.committed
    && s'.pending.timestamp == s.pending.timestamp
    && StacksSoFar(r, i, s'.pending.stacks, truncated) && TablesSoFar(g, r, i, s, s')
  }

  ghost predicate ChainDone(g: Graph, r: Request, s: State, s': State, truncated: bool, seen: bool, cut: bool) {
    && (cut ==> seen)
    && NoStackOpen(s) && NoStackOpen(s') && s'.committed == s.committed && s'.pending.timestamp == s.pending.timestamp
    && StacksDone(r, s'.pending.stacks, truncated, seen) && TablesDone(g, r, s, s', seen, cut)
  }

  lemma NothingYet(g: Graph, r: Request, s: State)
    requires s.pending.Pending? && s.pending.open.NoStack? && s.pending.stacks == []
    ensures Running(g, r, 0, s, s, false)
  {
    hide Sound, Closed;
  }

  lemma RunningNext(g: Graph, r: Request, i: nat, s0: State, s: State, s': State, truncated: bool, p: Part, cut: bool)
    requires ChainInGraph(g, r, i) && Running(g, r, i, s0, s, truncated)
    requires ExceptionCaptured(g, r, i, s, s', p, false, cut) && !p.stop
    ensures Running(g, r, i + 1, s0, s', truncated || p.blemish)
  {
    hide StacksSoFar, TablesSoFar, ObjectsAdded, StackFor, Blemished, OverflowsAt, FramesFor;
    StacksNext(r, i, s, s', truncated, p);
    TablesNext(g, r, i, s0, s, s', p);
  }

  lemma RunningEnds(g: Graph, r: Request, s0: State, s: State, truncated: bool)
    requires Running(g, r, |r.chain|, s0, s, truncated)
    ensures ChainDone(g, r, s0, s, truncated, false, false)
  {
    hide StacksSoFar, StacksDone, Sound, Closed, AllKnown, DepthsRight, ChainAfter;
    StacksComplete(r, s.pending.stacks, truncated);
  }

  lemma RunningCut(g: Graph, r: Request, i: nat, s0: State, s: State, truncated: bool)
    requires Running(g, r, i, s0, s, truncated)
    ensures ChainDone(g, r, s0, s, true, true, false)
  {
    hide StacksSoFar, StacksDone, Sound, Closed, AllKnown, DepthsRight, ChainAfter;
    StacksCut(r, i, s.pending.stacks, truncated);
  }

  lemma RunningStops(g: Graph, r: Request, i: nat, s0: State, s: State, s': State, truncated: bool, p: Part, seen: bool,
                     cut: bool)
    requires ChainInGraph(g, r, i) && Running(g, r, i, s0, s, truncated)
    requires ExceptionCaptured(g, r, i, s, s', p, seen, cut) && p.stop
    ensures ChainDone(g, r, s0, s', true, seen, cut)
  {
    hide StacksSoFar, StacksDone, TablesSoFar, TablesDone, ObjectsAdded, StackFor, Blemished, OverflowsAt, FramesFor;
    StacksStop(r, i, s, s', truncated, p, seen);
    TablesStop(g, r, i, s0, s, s', p, seen, cut);
  }

  lemma StopsIf(g: Graph, r: Request, i: nat, s: State, s': State, p: Part, seen: bool, cut: bool)
    requires ChainInGraph(g, r, i) && ExceptionCaptured(g, r, i, s, s', p, seen, cut)
    ensures seen ==> p.stop
    ensures !seen ==> !cut && (p.stop <==> OverflowsAt(r, i))
    ensures NoStackOpen(s') && s'.committed == s.committed
  {
    hide ObjectsAdded, StackFor, Blemished, OverflowsAt, FramesFor;
  }

  /**
   * What `takeSnapshotFromException` leaves in the log. Unless somebody cancels, exactly the exceptions
   * that have frames to show have a stacktrace, up to the first that has more than the limit admits, each
   * with all frames the limit admits. The snapshot is marked truncated exactly if the cancel flag was seen
   * or some exception of the chain has no frame or too many. If it is not marked, the whole chain is there
   * and a reader that starts at stacktrace 1 visits it in order.
   */
  ghost predicate ChainTaken(g: Graph, r: Request, s: State, s': State, timestamp: U64, written: bool, seen: bool,
                             cut: bool)
  {
    && s'.pending.Idle? && s'.objects == map[] && r.chain != [] && (cut ==> seen) && (Sound(g, s) ==> Sound(g, s'))
    && (!written ==> s'.committed == s.committed && (seen || forall i: nat :: i < |r.chain| ==> !IsShown(r, i)))
    && (written ==>
          && |s'.committed| == |s.committed| + 1 && s.committed <= s'.committed
          && var d := s'.committed[|s.committed|];
             && d.timestamp == timestamp && d.stacks != [] && StacksDone(r, d.stacks, d.truncated, seen)
             && (!d.truncated ==> ReadInOrder(r, d))
             && (Sound(g, s) ==> AllKnown(g, d.objectMap, r, d.stacks))
             && (Sound(g, s) && s.objects == map[] && !cut ==> Whole(g, s'.(objects := d.objectMap)))
             && (!seen ==> DepthsRight(g, s, r, d.stacks)))
  }

  ghost predicate ReadInOrder(r: Request, d: SnapData) {
    var n := |r.chain|;
    1 in ById(d.stacks)
      && ChainFrom(ById(d.stacks), 1) == UpTo(1, if n <= MAX_CHAIN_DEPTH then n else MAX_CHAIN_DEPTH + 1)
  }

  /**
   * Nobody cancels, there is no limit on frames, and every exception has a frame to show: then everything is
   * there, and says so.
   */
  lemma UncancelledChainIsComplete(g: Graph, r: Request, s: State, s': State, timestamp: U64, written: bool, cut: bool)
    requires ChainTaken(g, r, s, s', timestamp, written, false, cut) && r.maxFrames.None?
    requires forall i: nat :: i < |r.chain| ==> All(OrderFor(r, i)) != []
    ensures written
    ensures
      var d := s'.committed[|s.committed|];
      && !d.truncated && AllStacks(r, |r.chain|, d.stacks) && ReadInOrder(r, d)
      && (forall i :: 0 <= i < |r.chain| ==> d.stacks[i].frames == All(OrderFor(r, i)))
      && (Sound(g, s) && s.objects == map[] ==> Whole(g, s'.(objects := d.objectMap)))
  {
    hide Sound, Closed, AllKnown, DepthsRight, ReadInOrder, Unfiltered, InfoFor;
    assert !AnyBlemish(r, |r.chain|);
    assert IsShown(r, 0);
    var d := s'.committed[|s.committed|];
    forall i | 0 <= i < |r.chain| ensures d.stacks[i].frames == All(OrderFor(r, i)) {
      assert IsStackOf(r, |r.chain|, d.stacks[i], false);
    }
  }

  lemma InTable(r: Request, stacks: seq<Stack>, i: nat)
    requires StacksOf(r, |r.chain|, stacks, false) && AllStacks(r, |r.chain|, stacks) && i < |r.chain|
    ensures r.chain[i] in r.excs && stacks[i].info.id == i + 1 && InfoFor(r.excs, r.chain, i, stacks[i].info)
  {
    hide InfoFor;
    assert IsStackOf(r, |r.chain|, stacks[i], false);
  }

  lemma EachInTable(r: Request, stacks: seq<Stack>, i: nat)
    requires StacksOf(r, |r.chain|, stacks, false) && AllStacks(r, |r.chain|, stacks) && i < |r.chain|
    ensures HoldsAt(r.excs, r.chain, ById(stacks), i)
  {
    hide IsStackOf, ById, InfoFor;
    ByIdKeepsAll(stacks);
    InTable(r, stacks, i);
    assert stacks[i].info.id == i + 1;
  }

  lemma AllInTable(r: Request, stacks: seq<Stack>)
    requires StacksOf(r, |r.chain|, stacks, false) && AllStacks(r, |r.chain|, stacks)
    ensures HoldsChain(r.excs, r.chain, ById(stacks))
  {
    hide HoldsAt, IsStackOf, ById;
    ByIdKeepsAll(stacks);
    forall i | 0 <= i < |r.chain| ensures HoldsAt(r.excs, r.chain, ById(stacks), i) {
      EachInTable(r, stacks, i);
    }
    forall id | id in ById(stacks) ensures 1 <= id <= |r.chain| {
      var i :| 0 <= i < |stacks| && stacks[i].info.id == id;
    }
  }

  // ------------------------------------------------------------------
  // What the whole chain takes
  // ------------------------------------------------------------------

  /** The records of the first `n` exceptions. */
  function ChainBytes(r: Request, n: nat): nat
    requires n <= |r.chain|
  {
    if n == 0 then 0 else ChainBytes(r, n - 1) + ExceptionBytes(r, n - 1)
  }

  lemma ChainBytesNext(r: Request, i: nat)
    requires i < |r.chain|
    ensures ChainBytes(r, i + 1) == ChainBytes(r, i) + ExceptionBytes(r, i)
  {
  }

  lemma {:induction false} ChainBytesGrow(r: Request, i: nat, n: nat)
    requires i <= n <= |r.chain|
    ensures ChainBytes(r, i) <= ChainBytes(r, n)
    decreases n
  {
    hide ExceptionBytes;
    if i < n {
      ChainBytesGrow(r, i, n - 1);
    }
  }

  /** How many exceptions are dealt with, from the i-th on: the first with too many frames ends the chain. */
  function DealtWith(r: Request, i: nat): (n: nat)
    requires i <= |r.chain|
    ensures i <= n <= |r.chain|
    decreases |r.chain| - i
  {
    if i == |r.chain| then i else if OverflowsAt(r, i) then i + 1 else DealtWith(r, i + 1)
  }

  /** The looks before the i-th exception is looked at. */
  ghost function ChainLooksBefore(g: Graph, s: State, r: Request, i: nat): nat
    requires i <= |r.chain|
  {
    if i == 0 then 0
    else ChainLooksBefore(g, s, r, i - 1) + 1 + ExceptionLooks(g, ChainAfter(g, s, r, i - 1), r, i - 1)
  }

  /** The looks of a whole chain. */
  ghost function ChainLooks(g: Graph, s: State, r: Request): nat {
    ChainLooksBefore(g, s, r, DealtWith(r, 0))
  }

  lemma {:induction false} ChainLooksGrow(g: Graph, s: State, r: Request, i: nat, j: nat)
    requires i <= j <= |r.chain|
    ensures ChainLooksBefore(g, s, r, i) <= ChainLooksBefore(g, s, r, j)
    decreases j
  {
    hide ExceptionLooks, ChainAfter;
    if i < j {
      ChainLooksGrow(g, s, r, i, j - 1);
    }
  }

  /** Only the pending part of the log differs. */
  lemma {:induction false} ChainLooksApart(g: Graph, s: State, s1: State, r: Request, i: nat)
    requires s1 == s.(pending := s1.pending) && i <= |r.chain|
    ensures ChainLooksBefore(g, s1, r, i) == ChainLooksBefore(g, s, r, i)
  {
    hide ExceptionLooks, ChainAfter;
    if i > 0 {
      ChainLooksApart(g, s, s1, r, i - 1);
      ChainApart(g, r, s, s1, i - 1);
      ExceptionLooksApart(g, ChainAfter(g, s, r, i - 1), ChainAfter(g, s1, r, i - 1), r, i - 1);
    }
  }

  lemma ExceptionLooksApart(g: Graph, t: State, s: State, r: Request, i: nat)
    requires s == t.(pending := s.pending) && i < |r.chain|
    ensures ExceptionLooks(g, s, r, i) == ExceptionLooks(g, t, r, i)
  {
    hide StepsOf, ObjectWalk, EndOf, StackLooks;
    var id, limit := r.chain[i], r.limit;
    ObjectWalkPending(g, t, s, id, limit);
    StepsPending(g, ObjectWalk(g, t, id, limit), limit, s.pending);
    EndPending(g, ObjectWalk(g, t, id, limit), limit, s.pending);
    StackLooksApart(g, ObjectAfter(g, t, id, limit), ObjectAfter(g, s, id, limit), r, i);
  }

  /** The i-th exception is next: so much has been spent, and so many looks have been taken. */
  ghost predicate ChainAt(g: Graph, r: Request, s: State, hs: nat, s': State, hs': nat, i: nat, looks: nat) {
    && i <= |r.chain| && Spent(g, s, hs, s', hs', ChainBytes(r, i))
    && looks == ChainLooksBefore(g, s, r, i) && DealtWith(r, 0) == DealtWith(r, i)
  }

  lemma ChainAtStart(g: Graph, r: Request, s: State, hs: nat)
    ensures ChainAt(g, r, s, hs, s, hs, 0, 0)
  {
    hide Spent;
    NothingSpent(g, s, hs);
  }

  /** Whatever comes of the i-th exception, its looks are among those of the chain. */
  lemma ChainGoesOn(g: Graph, r: Request, s: State, hs: nat, s1: State, h1: nat, i: nat, looks: nat)
    requires ChainAt(g, r, s, hs, s1, h1, i, looks) && i < |r.chain|
    requires s1 == ChainAfter(g, s, r, i).(pending := s1.pending)
    ensures looks + 1 + ExceptionLooks(g, s1, r, i) <= ChainLooks(g, s, r)
    ensures looks + 1 + ExceptionLooks(g, s1, r, i) == ChainLooksBefore(g, s, r, i + 1)
    ensures OverflowsAt(r, i) ==> looks + 1 + ExceptionLooks(g, s1, r, i) == ChainLooks(g, s, r)
    ensures !OverflowsAt(r, i) ==> DealtWith(r, 0) == DealtWith(r, i + 1)
  {
    hide ExceptionLooks, ChainAfter, OverflowsAt, Spent;
    ExceptionLooksApart(g, ChainAfter(g, s, r, i), s1, r, i);
    ChainLooksGrow(g, s, r, i + 1, DealtWith(r, 0));
  }

  lemma ChainSpends(g: Graph, r: Request, s: State, hs: nat, s1: State, h1: nat, s2: State, h2: nat, i: nat, looks: nat)
    requires ChainAt(g, r, s, hs, s1, h1, i, looks) && i < |r.chain| && Spent(g, s1, h1, s2, h2, ExceptionBytes(r, i))
    ensures Spent(g, s, hs, s2, h2, ChainBytes(r, i + 1)) && Spent(g, s, hs, s2, h2, ChainBytes(r, |r.chain|))
  {
    hide Spent, ExceptionBytes, DealtWith, ChainLooksBefore, ChainBytes;
    ChainBytesNext(r, i);
    SpentFurther(g, s, hs, s1, h1, s2, h2, ChainBytes(r, i), ExceptionBytes(r, i));
    ChainBytesGrow(r, i + 1, |r.chain|);
    SpentMore(g, s, hs, s2, h2, ChainBytes(r, i + 1), ChainBytes(r, |r.chain|));
  }

  lemma ChainStaysAt(g: Graph, r: Request, s: State, hs: nat, s1: State, h1: nat, i: nat, looks: nat)
    requires ChainAt(g, r, s, hs, s1, h1, i, looks)
    ensures Spent(g, s, hs, s1, h1, ChainBytes(r, |r.chain|))
  {
    hide Spent, ExceptionBytes, DealtWith, ChainLooksBefore;
    ChainBytesGrow(r, i, |r.chain|);
    SpentMore(g, s, hs, s1, h1, ChainBytes(r, i), ChainBytes(r, |r.chain|));
  }

  /** There was no room for a call of the i-th exception. */
  lemma ChainFails(w: SnapshotWriter, g: Graph, r: Request, s: State, hs: nat, s1: State, h1: nat, i: nat,
                   truncated: bool, looks: nat, since: nat, since0: nat)
    requires RunsAt(g, r, i, s, hs, s1, h1, truncated, looks) && i < |r.chain| && since0 <= since
    requires StarvedAt(w, g, r, i, since) && NoRoom(w, since, Room(g, s1, h1, ExceptionBytes(r, i)))
    ensures StarvedAt(w, g, r, i, since0) && NoRoom(w, since0, Room(g, s, hs, ChainBytes(r, |r.chain|)))
  {
    hide Running, Spent, ExceptionBytes, DealtWith, ChainLooksBefore, Room, StarvedAt;
    StarvedBefore(w, g, r, i, since, since0);
    RoomFromStart(g, s, hs, s1, h1, ChainBytes(r, i), ExceptionBytes(r, i));
    ChainBytesGrow(r, i + 1, |r.chain|);
    MoreRoom(g, s, hs, ChainBytes(r, i + 1), ChainBytes(r, |r.chain|));
  }

  /** Why a capture of a chain was given up. */
  ghost predicate ChainStarved(w: SnapshotWriter, g: Graph, r: Request, timestamp: U64, since: nat)
    reads w, w.mem
  {
    || w.Lacks(Op.BeginSnapshot(timestamp), since) || w.Lacks(Op.EndSnapshot(false), since)
    || w.Lacks(Op.EndSnapshot(true), since)
    || exists i: nat :: i < |r.chain| && StarvedAt(w, g, r, i, since)
  }

  /** How a capture of a chain fails, and why it cannot fail otherwise. */
  twostate predicate ChainGivenUp(w: SnapshotWriter, g: Graph, r: Request, timestamp: U64, o: Outcome)
    reads w, w.mem
  {
    && w.st.committed == old(w.st).committed
    && (|| (o == Failed(SnapshotOpen) && old(w.st).pending.Pending? && w.st == old(w.st))
        || (o == Failed(OutOfSpace) && ChainStarved(w, g, r, timestamp, old(w.attempts))))
    && (o == Failed(OutOfSpace) ==>
          NoRoom(w, old(w.attempts),
                 Room(g, old(w.st), old(w.heapStart), SNAPSHOT_HEADER_SIZE + ChainBytes(r, |r.chain|))))
  }

  /** The exceptions of the chain, one after another, until one has too many frames or the cancel flag is seen. */
  method WriteChain(w: SnapshotWriter, g: Graph, r: Request, ids: map<U64, U64>, cancel: CancelFlag)
    returns (o: Outcome, truncated: bool)
    requires w.Valid() && w.initialized && NoStackOpen(w.st) && w.st.pending.stacks == [] && GoodRequest(g, r)
    requires (forall e :: e in ids <==> e in r.chain) && forall j :: 0 <= j < |r.chain| ==> ids[r.chain[j]] == j + 1
    requires cancel.Valid() && !cancel.Seen() && !cancel.cut
    modifies w, w.mem, w.reader, cancel
    ensures w.Valid() && w.initialized && w.reader == old(w.reader) && (w.mem == old(w.mem) || fresh(w.mem))
    ensures old(w.attempts) <= w.attempts
    ensures w.st.committed == old(w.st).committed && cancel.Valid()
    ensures o.Done? ==> NoStackOpen(w.st) && ChainDone(g, r, old(w.st), w.st, truncated, cancel.Seen(), cancel.cut)
    ensures o.Done? ==> cancel.Looked(ChainLooks(g, old(w.st), r))
    ensures o.Done? ==> Spent(g, old(w.st), old(w.heapStart), w.st, w.heapStart, ChainBytes(r, |r.chain|))
    ensures o.Failed? ==>
      o == Failed(OutOfSpace) && exists i: nat :: i < |r.chain| && StarvedAt(w, g, r, i, old(w.attempts))
    ensures o.Failed? ==> NoRoom(w, old(w.attempts), Room(g, old(w.st), old(w.heapStart), ChainBytes(r, |r.chain|)))
  {
    hide Inv, Growth, GoodRequest, ExceptionCaptured, ChainDone, StarvedAt, RunsAt, ExceptionLooks, ChainLooks, Spent,
         Room, ExceptionBytes, ChainBytes, OverflowsAt, SnapshotWriter.Valid;
    ghost var s, hs, since := w.st, w.heapStart, w.attempts;
    o, truncated := Done, false;
    RunsAtStart(g, r, s, hs);
    for i := 0 to |r.chain|
      invariant w.Valid() && w.initialized && w.reader == old(w.reader) && (w.mem == old(w.mem) || fresh(w.mem))
      invariant o.Done?
      invariant cancel.Valid() && !cancel.Seen() && !cancel.cut && old(cancel.looks) <= cancel.looks
      invariant since <= w.attempts
      invariant NoStackOpen(w.st) && w.st.committed == s.committed
      invariant RunsAt(g, r, i, s, hs, w.st, w.heapStart, truncated, cancel.looks - old(cancel.looks))
    {
      ghost var before, h1, looks, since1 := w.st, w.heapStart, cancel.looks - old(cancel.looks), w.attempts;
      var cancelRequested := cancel.IsRequested();
      if cancelRequested {
        CutBefore(g, r, i, s, hs, before, h1, truncated, looks);
        truncated := true;
        return;
      }
      var p;
      o, p := CaptureException(w, g, r, ids, i, cancel);
      if o.Failed? {
        ChainFails(w, g, r, s, hs, before, h1, i, truncated, looks, since1, since);
        return;
      }
      AfterOne(g, r, i, s, hs, before, h1, truncated, looks, w.st, w.heapStart, p, cancel.Seen(), cancel.cut);
      if p.stop {
        truncated := true;
        return;
      }
      truncated := truncated || p.blemish;
    }
    AfterAll(g, r, s, hs, w.st, w.heapStart, truncated, cancel.looks - old(cancel.looks));
  }

  /** The first `i` exceptions have been dealt with, at this cost and with so many looks. */
  ghost predicate RunsAt(g: Graph, r: Request, i: nat, s: State, hs: nat, s': State, hs': nat, truncated: bool,
                         looks: nat)
  {
    Running(g, r, i, s, s', truncated) && ChainAt(g, r, s, hs, s', hs', i, looks)
  }

  lemma RunsAtStart(g: Graph, r: Request, s: State, hs: nat)
    requires NoStackOpen(s) && s.pending.stacks == []
    ensures RunsAt(g, r, 0, s, hs, s, hs, false, 0)
  {
    hide Running, ChainAt;
    NothingYet(g, r, s);
    ChainAtStart(g, r, s, hs);
  }

  /** The flag is seen before the i-th exception. */
  lemma CutBefore(g: Graph, r: Request, i: nat, s: State, hs: nat, s1: State, h1: nat, truncated: bool, looks: nat)
    requires RunsAt(g, r, i, s, hs, s1, h1, truncated, looks) && i < |r.chain|
    ensures ChainDone(g, r, s, s1, true, true, false) && Spent(g, s, hs, s1, h1, ChainBytes(r, |r.chain|))
    ensures looks < ChainLooks(g, s, r)
  {
    hide Running, ChainAt, ChainDone, Spent, ChainBytes, ChainLooks, ExceptionLooks;
    RunningTables(g, r, i, s, s1, truncated);
    ChainGoesOn(g, r, s, hs, s1, h1, i, looks);
    RunningCut(g, r, i, s, s1, truncated);
    ChainStaysAt(g, r, s, hs, s1, h1, i, looks);
  }

  /** The i-th exception has been dealt with: the chain ends with it, or goes on. */
  lemma AfterOne(g: Graph, r: Request, i: nat, s: State, hs: nat, s1: State, h1: nat, truncated: bool, looks: nat,
                 s2: State, h2: nat, p: Part, seen: bool, cut: bool)
    requires RunsAt(g, r, i, s, hs, s1, h1, truncated, looks) && ChainInGraph(g, r, i)
    requires ExceptionCaptured(g, r, i, s1, s2, p, seen, cut) && Spent(g, s1, h1, s2, h2, ExceptionBytes(r, i))
    ensures NoStackOpen(s2) && s2.committed == s1.committed && (seen ==> p.stop) && (!seen ==> !cut)
    ensures looks + 1 + ExceptionLooks(g, s1, r, i) <= ChainLooks(g, s, r)
    ensures p.stop ==> ChainDone(g, r, s, s2, true, seen, cut) && Spent(g, s, hs, s2, h2, ChainBytes(r, |r.chain|))
    ensures p.stop && !seen ==> looks + 1 + ExceptionLooks(g, s1, r, i) == ChainLooks(g, s, r)
    ensures !p.stop ==>
      RunsAt(g, r, i + 1, s, hs, s2, h2, truncated || p.blemish, looks + 1 + ExceptionLooks(g, s1, r, i))
  {
    hide Running, ChainAt, ChainDone, ExceptionCaptured, Spent, ChainBytes, ChainLooks, ExceptionLooks, ExceptionBytes,
         OverflowsAt;
    RunningTables(g, r, i, s, s1, truncated);
    ChainGoesOn(g, r, s, hs, s1, h1, i, looks);
    StopsIf(g, r, i, s1, s2, p, seen, cut);
    ChainSpends(g, r, s, hs, s1, h1, s2, h2, i, looks);
    if p.stop {
      RunningStops(g, r, i, s, s1, s2, truncated, p, seen, cut);
    } else {
      RunningNext(g, r, i, s, s1, s2, truncated, p, cut);
      ChainAtNext(g, r, s, hs, s1, h1, s2, h2, i, looks, looks + 1 + ExceptionLooks(g, s1, r, i));
    }
  }

  lemma AfterAll(g: Graph, r: Request, s: State, hs: nat, s': State, hs': nat, truncated: bool, looks: nat)
    requires RunsAt(g, r, |r.chain|, s, hs, s', hs', truncated, looks)
    ensures ChainDone(g, r, s, s', truncated, false, false) && Spent(g, s, hs, s', hs', ChainBytes(r, |r.chain|))
    ensures looks == ChainLooks(g, s, r)
  {
    hide Running, ChainAt, ChainDone, Spent, ChainBytes, ChainLooks;
    RunningEnds(g, r, s, s', truncated);
    ChainAtEnd(g, r, s, hs, s', hs', looks);
  }

  lemma RunningTables(g: Graph, r: Request, i: nat, s: State, s': State, truncated: bool)
    requires Running(g, r, i, s, s', truncated)
    ensures i <= |r.chain| && s' == ChainAfter(g, s, r, i).(pending := s'.pending)
  {
    hide StacksSoFar, Sound, Closed, AllKnown, DepthsRight, ChainAfter;
  }

  lemma ChainAtNext(g: Graph, r: Request, s: State, hs: nat, s1: State, h1: nat, s2: State, h2: nat, i: nat, looks: nat,
                    looks': nat)
    requires ChainAt(g, r, s, hs, s1, h1, i, looks) && i < |r.chain| && !OverflowsAt(r, i)
    requires Spent(g, s, hs, s2, h2, ChainBytes(r, i + 1)) && looks' == ChainLooksBefore(g, s, r, i + 1)
    ensures ChainAt(g, r, s, hs, s2, h2, i + 1, looks')
  {
    hide Spent, ChainBytes, ChainLooksBefore, OverflowsAt;
  }

  lemma ChainAtEnd(g: Graph, r: Request, s: State, hs: nat, s': State, hs': nat, looks: nat)
    requires ChainAt(g, r, s, hs, s', hs', |r.chain|, looks)
    ensures looks == ChainLooks(g, s, r) && Spent(g, s, hs, s', hs', ChainBytes(r, |r.chain|))
  {
    hide Spent, ChainBytes, ChainLooksBefore;
  }

  /**
   * An exception with everything that led to it as one snapshot. Like the capture of a stack it fails only
   * if a snapshot is open, or an extension is refused meanwhile, or its records would not fit below the limit.
   */
  method TakeSnapshotFromException(w: SnapshotWriter, g: Graph, timestamp: U64, exception: U64, excs: map<U64, Links>,
                                   tracebacks: Tracebacks, filters: seq<Str>, maxFrames: Option<nat>,
                                   limit: Option<nat>, cancel: CancelFlag)
    returns (o: Outcome, written: bool, ghost r: Request)
    requires w.Valid() && w.initialized
    requires ClosedLinks(excs) && exception in excs && |excs| < 0x1_0000_0000
    requires ClosedGraph(g) && excs.Keys <= g.Keys && TracebacksInGraph(g, tracebacks)
    requires cancel.Valid() && !cancel.Seen() && !cancel.cut
    modifies w, w.mem, w.reader, cancel
    ensures w.Valid() && w.initialized && w.reader == old(w.reader) && (w.mem == old(w.mem) || fresh(w.mem))
    ensures cancel.Valid()
    ensures r == Request(excs, r.chain, tracebacks, filters, maxFrames, limit) && IsChain(excs, exception, r.chain)
    ensures o.Done? ==> ChainTaken(g, r, old(w.st), w.st, timestamp, written, cancel.Seen(), cancel.cut)
    ensures o.Done? ==> cancel.Looked(ChainLooks(g, old(w.st), r))
    ensures o.Failed? ==> !written && ChainGivenUp(w, g, r, timestamp, o)
  {
    hide Inv, Growth, IsChain, TracebacksInGraph, ClosedGraph, ChainTaken, ClosedLinks, ChainStarved, NoRoom, Room,
         ChainBytes, GoodRequest, ChainLooks, SnapshotWriter.Valid;
    var chain := CollectExceptions(excs, exception);
    var request := Request(excs, chain, tracebacks, filters, maxFrames, limit);
    r := request;
    ChainIsShort(excs, exception, chain);
    RequestIsGood(g, r, exception);
    var ids := AssignIds(chain);
    o, written := CaptureChain(w, g, timestamp, exception, request, ids, cancel);
  }

  /** Begin the snapshot, write the stacktraces, and end it. */
  method CaptureChain(w: SnapshotWriter, g: Graph, timestamp: U64, ghost root: U64, r: Request, ids: map<U64, U64>,
                      cancel: CancelFlag)
    returns (o: Outcome, written: bool)
    requires w.Valid() && w.initialized && GoodRequest(g, r) && IsChain(r.excs, root, r.chain) && r.chain != []
    requires (forall e :: e in ids <==> e in r.chain) && forall j :: 0 <= j < |r.chain| ==> ids[r.chain[j]] == j + 1
    requires cancel.Valid() && !cancel.Seen() && !cancel.cut
    modifies w, w.mem, w.reader, cancel
    ensures w.Valid() && w.initialized && w.reader == old(w.reader) && (w.mem == old(w.mem) || fresh(w.mem))
    ensures cancel.Valid()
    ensures o.Done? ==> ChainTaken(g, r, old(w.st), w.st, timestamp, written, cancel.Seen(), cancel.cut)
    ensures o.Done? ==> cancel.Looked(ChainLooks(g, old(w.st), r))
    ensures o.Failed? ==> !written && ChainGivenUp(w, g, r, timestamp, o)
  {
    hide Inv, Growth, IsChain, ChainDone, ChainTaken, StarvedAt, GoodRequest, ChainLooks, Spent, Room, ChainBytes,
         ChainFinished, SnapshotWriter.Valid, SnapshotWriter.Lacks;
    ghost var s, hs, since, bytes := w.st, w.heapStart, w.attempts, ChainBytes(r, |r.chain|);
    written := false;
    o := OpenPending(w, g, timestamp);
    MoreRoom(g, s, hs, SNAPSHOT_HEADER_SIZE, SNAPSHOT_HEADER_SIZE + bytes);
    if o.Failed? {
      return;
    }
    ghost var s1, h1, since1 := w.st, w.heapStart, w.attempts;
    ChainLooksFromStart(g, s, s1, r);
    var truncated;
    o, truncated := WriteChain(w, g, r, ids, cancel);
    RoomFromStart(g, s, hs, s1, h1, SNAPSHOT_HEADER_SIZE, bytes);
    if o.Failed? {
      ChainStarvedBefore(w, g, r, timestamp, since1, since);
      return;
    }
    ghost var s2, h2, since2 := w.st, w.heapStart, w.attempts;
    SpentFurther(g, s, hs, s1, h1, s2, h2, SNAPSHOT_HEADER_SIZE, bytes);
    o, written := FinishChain(w, g, truncated);
    if o.Done? {
      ChainTakenSo(g, r, root, s, timestamp, s2, w.st, truncated, written, cancel.Seen(), cancel.cut);
    } else {
      LacksBefore(w, Op.EndSnapshot(truncated), since2, since);
      RoomFromStart(g, s, hs, s2, h2, SNAPSHOT_HEADER_SIZE + bytes, 0);
    }
  }

  lemma ChainLooksFromStart(g: Graph, s: State, s1: State, r: Request)
    requires s1 == s.(pending := s1.pending)
    ensures ChainLooks(g, s1, r) == ChainLooks(g, s, r)
  {
    hide ChainLooksBefore;
    ChainLooksApart(g, s, s1, r, DealtWith(r, 0));
  }

  lemma ChainStarvedBefore(w: SnapshotWriter, g: Graph, r: Request, timestamp: U64, since: nat, since0: nat)
    requires since0 <= since && exists i: nat :: i < |r.chain| && StarvedAt(w, g, r, i, since)
    ensures ChainStarved(w, g, r, timestamp, since0)
  {
    hide StarvedAt, SnapshotWriter.Lacks;
    var i: nat :| i < |r.chain| && StarvedAt(w, g, r, i, since);
    StarvedBefore(w, g, r, i, since, since0);
  }

  /** The log when the snapshot has been ended, or dropped because it has no stacktrace. */
  ghost function ChainFinished(s: State, truncated: bool): State
    requires NoStackOpen(s)
  {
    if s.pending.stacks == [] then s.(pending := Idle, objects := map[])
    else s.(committed := s.committed + [SnapData(s.pending.timestamp, s.pending.stacks, s.objects, truncated)],
            pending := Idle, objects := map[])
  }

  method FinishChain(w: SnapshotWriter, g: Graph, truncated: bool) returns (o: Outcome, written: bool)
    requires w.Valid() && w.initialized && NoStackOpen(w.st)
    modifies w, w.mem, w.reader
    ensures w.Valid() && w.initialized && w.reader == old(w.reader) && (w.mem == old(w.mem) || fresh(w.mem))
    ensures old(w.attempts) <= w.attempts
    ensures o.Done? ==> w.st == ChainFinished(old(w.st), truncated) && written == (old(w.st).pending.stacks != [])
    ensures o.Failed? ==> w.st.committed == old(w.st).committed && !written && o == Failed(OutOfSpace)
    ensures o.Failed? ==> w.Lacks(Op.EndSnapshot(truncated), old(w.attempts))
    ensures o.Failed? ==> NoRoom(w, old(w.attempts), Room(g, old(w.st), old(w.heapStart), 0))
  {
    hide Inv, Growth, Room, SnapshotWriter.Lacks, SnapshotWriter.Valid;
    written := false;
    StacksCounted(w);
    if w.currentStacktraceCount == 0 {
      DropPending(w);
      o := Done;
    } else {
      o, written := CommitPending(w, g, truncated);
    }
  }

  lemma StacksCounted(w: SnapshotWriter)
    requires w.Valid() && w.initialized && w.st.pending.Pending?
    ensures w.currentStacktraceCount == |w.st.pending.stacks|
  {
    hide Inv, Growth;
    FrameCount(w.mem[..], w.C(), w.snaps, w.st);
  }

  lemma ChainIsShort(excs: map<U64, Links>, root: U64, chain: seq<U64>)
    requires IsChain(excs, root, chain)
    ensures chain != [] && |chain| <= |excs|
    ensures forall i, j :: 0 <= i < j < |chain| ==> chain[i] != chain[j]
    ensures chain[0] == root && forall i :: 0 <= i < |chain| ==> chain[i] in excs
  {
    Distinct(chain, excs.Keys);
  }

  lemma {:induction false} Distinct(chain: seq<U64>, all: set<U64>)
    requires (forall i :: 0 <= i < |chain| ==> chain[i] in all) && forall i, j :: 0 <= i < j < |chain| ==>
      chain[i] != chain[j]
    ensures |chain| <= |all|
  {
    if chain != [] {
      var n := |chain| - 1;
      Distinct(chain[..n], all - {chain[n]});
    }
  }

  lemma RequestIsGood(g: Graph, r: Request, root: U64)
    requires IsChain(r.excs, root, r.chain) && |r.chain| < 0x1_0000_0000 && ClosedGraph(g) && r.excs.Keys <= g.Keys
    requires TracebacksInGraph(g, r.tracebacks)
    ensures GoodRequest(g, r)
  {
    hide ClosedGraph, TracebacksInGraph;
    forall i | 0 <= i < |r.chain| ensures r.chain[i] in g {
      assert r.chain[i] in r.excs.Keys;
    }
  }

  lemma ChainTakenSo(g: Graph, r: Request, root: U64, s: State, timestamp: U64, s2: State, s3: State, truncated: bool,
                     written: bool, seen: bool, cut: bool)
    requires s.pending.Idle? && IsChain(r.excs, root, r.chain) && r.chain != []
    requires ChainDone(g, r, s.(pending := Pending(timestamp, [], NoStack)), s2, truncated, seen, cut)
    requires NoStackOpen(s2) && written == (s2.pending.stacks != [])
    requires s3 == ChainFinished(s2, truncated)
    ensures ChainTaken(g, r, s, s3, timestamp, written, seen, cut)
  {
    hide Sound, Whole, IsChain, ReadInOrder, AllKnown, DepthsRight, StacksDone, IsShown, TablesDone;
    TablesTaken(g, r, s, s.(pending := Pending(timestamp, [], NoStack)), s2, s3, seen, cut);
    if !truncated {
      TakenInOrder(r, root, s2.pending.stacks, seen);
      ReadInOrderSo(r, SnapData(s2.pending.timestamp, s2.pending.stacks, s2.objects, truncated));
    }
    if !written && !seen {
      NoneShown(r, s2.pending.stacks, truncated);
    }
  }

  lemma ReadInOrderSo(r: Request, d: SnapData)
    requires 1 in ById(d.stacks)
    requires ChainFrom(ById(d.stacks), 1) ==
      UpTo(1, if |r.chain| <= MAX_CHAIN_DEPTH then |r.chain| else MAX_CHAIN_DEPTH + 1)
    ensures ReadInOrder(r, d)
  {
    hide ChainFrom, UpTo;
  }

  /** Heap and tables of the finished snapshot. */
  lemma TablesTaken(g: Graph, r: Request, s: State, s1: State, s2: State, s3: State, seen: bool, cut: bool)
    requires s1 == s.(pending := s1.pending) && NoStackOpen(s2) && TablesDone(g, r, s1, s2, seen, cut)
    requires s3 == s2.(committed := s3.committed, pending := s3.pending, objects := map[])
    ensures Sound(g, s) ==> Sound(g, s3) && AllKnown(g, s2.objects, r, s2.pending.stacks)
    ensures Sound(g, s) && s.objects == map[] && !cut ==> Whole(g, s3.(objects := s2.objects))
    ensures !seen ==> DepthsRight(g, s, r, s2.pending.stacks)
  {
    hide Sound, Closed, AllKnown, DepthsRight;
    BegunSame(g, s, s1);
    Forgotten(g, s2, s3);
    SameTables(g, s2, s3.(objects := s2.objects), []);
    DepthsApart(g, r, s, s1, s2.pending.stacks);
  }

  lemma NoneShown(r: Request, stacks: seq<Stack>, truncated: bool)
    requires StacksDone(r, stacks, truncated, false) && stacks == []
    ensures forall i: nat :: i < |r.chain| ==> !IsShown(r, i)
  {
    hide IsShown, AnyBlemish;
    forall i: nat | i < |r.chain| ensures !IsShown(r, i) {
      assert !HasStack(stacks, i);
    }
  }

  lemma TakenInOrder(r: Request, root: U64, stacks: seq<Stack>, seen: bool)
    requires IsChain(r.excs, root, r.chain) && StacksDone(r, stacks, false, seen)
    ensures 1 in ById(stacks)
    ensures ChainFrom(ById(stacks), 1) ==
      UpTo(1, if |r.chain| <= MAX_CHAIN_DEPTH then |r.chain| else MAX_CHAIN_DEPTH + 1)
  {
    hide IsChain, UpTo, ChainFrom, IsShown, AnyBlemish, IsStackOf;
    AllInTable(r, stacks);
    ChainReadBack(r.excs, root, r.chain, ById(stacks));
  }

  lemma DepthsApart(g: Graph, r: Request, s: State, s1: State, stacks: seq<Stack>)
    requires s1 == s.(pending := s1.pending)
    ensures DepthsRight(g, s1, r, stacks) ==> DepthsRight(g, s, r, stacks)
  {
    hide ChainAfter, ExceptionHit;
    if DepthsRight(g, s1, r, stacks) {
      forall k | 0 <= k < |stacks| ensures DepthRight(g, s, r, stacks[k]) {
        assert DepthRight(g, s1, r, stacks[k]);
        ChainApart(g, r, s, s1, stacks[k].info.id - 1);
        PendingApart(g, ChainAfter(g, s, r, stacks[k].info.id - 1), ChainAfter(g, s1, r, stacks[k].info.id - 1), r,
                     stacks[k].info.id - 1);
      }
    }
  }

  lemma {:induction false} ChainApart(g: Graph, r: Request, s: State, s1: State, i: nat)
    requires s1 == s.(pending := s1.pending) && i <= |r.chain|
    ensures ChainAfter(g, s1, r, i) == ChainAfter(g, s, r, i).(pending := s1.pending)
  {
    hide AfterException;
    if i > 0 {
      ChainApart(g, r, s, s1, i - 1);
      PendingApart(g, ChainAfter(g, s, r, i - 1), ChainAfter(g, s1, r, i - 1), r, i - 1);
    }
  }

  /**
   * From live exceptions to the chain that a debugger shows: capture, look the snapshot up through the
   * borrowed reader, and collect the chain from stacktrace 1. If the snapshot is not marked truncated,
   * that is 1, 2, 3 and so on in the order of the chain, up to the cap.
   */
  method CaptureAndCollect(w: SnapshotWriter, r: SnapshotReader, g: Graph, timestamp: U64, exception: U64,
                           excs: map<U64, Links>, tracebacks: Tracebacks, filters: seq<Str>, maxFrames: Option<nat>,
                           limit: Option<nat>, cancel: CancelFlag)
    returns (o: Outcome, written: bool, chain: seq<U64>, labels: seq<Option<Label>>, ghost q: Request)
    requires w.Valid() && w.initialized && w.reader == r
    requires ClosedLinks(excs) && exception in excs && |excs| < 0x1_0000_0000
    requires ClosedGraph(g) && excs.Keys <= g.Keys && TracebacksInGraph(g, tracebacks)
    requires cancel.Valid() && !cancel.Seen() && !cancel.cut
    modifies w, w.mem, w.reader, cancel
    ensures w.Valid() && w.initialized && w.reader == old(w.reader) && cancel.Valid()
    ensures q == Request(excs, q.chain, tracebacks, filters, maxFrames, limit) && IsChain(excs, exception, q.chain)
    ensures o.Done? ==> ChainTaken(g, q, old(w.st), w.st, timestamp, written, cancel.Seen(), cancel.cut)
    ensures o.Done? ==> cancel.Looked(ChainLooks(g, old(w.st), q))
    ensures o.Failed? ==> !written && ChainGivenUp(w, g, q, timestamp, o)
    ensures written ==> o.Done? && |w.st.committed| == |old(w.st).committed| + 1
    ensures
      var table := if written then ById(w.st.committed[|old(w.st).committed|].stacks) else map[];
      if 1 in table then chain == ChainFrom(table, 1) && Labelled(table, chain, labels) else chain == [] && labels == []
    ensures written && !w.st.committed[|old(w.st).committed|].truncated ==>
      chain == UpTo(1, if |q.chain| <= MAX_CHAIN_DEPTH then |q.chain| else MAX_CHAIN_DEPTH + 1)
  {
    hide Inv, Growth, ClosedGraph, ClosedLinks, TracebacksInGraph, IsChain, ChainTaken, ChainFrom, Labelled, UpTo,
         ChainLooks, ChainGivenUp, SnapshotWriter.Valid;
    chain, labels := [], [];
    ghost var s := w.st;
    o, written, q :=
      TakeSnapshotFromException(w, g, timestamp, exception, excs, tracebacks, filters, maxFrames, limit, cancel);
    if !written {
      return;
    }
    TakenLast(g, q, s, w.st, timestamp, cancel.Seen(), cancel.cut);
    chain, labels := CollectLatest(w, r);
  }

  /** The chain of the newest snapshot, from stacktrace 1. */
  method CollectLatest(w: SnapshotWriter, r: SnapshotReader) returns (chain: seq<U64>, labels: seq<Option<Label>>)
    requires w.Valid() && w.initialized && w.reader == r && w.st.committed != []
    ensures
      var table := ById(w.st.committed[|w.st.committed| - 1].stacks);
      if 1 in table then chain == ChainFrom(table, 1) && Labelled(table, chain, labels) else chain == [] && labels == []
  {
    hide Inv, Growth, ChainFrom, Labelled;
    chain, labels := [], [];
    var latest := Runs.ObserveLatest(w, r);
    FiledById(w.st.committed[|w.st.committed| - 1].stacks);
    if 1 in latest.stacktraces {
      var snapshot := new StacktraceDict(latest.stacktraces);
      chain, labels := CollectChain(snapshot, 1);
    }
  }

  lemma TakenLast(g: Graph, r: Request, s: State, s': State, timestamp: U64, seen: bool, cut: bool)
    requires ChainTaken(g, r, s, s', timestamp, true, seen, cut)
    ensures |s'.committed| == |s.committed| + 1
    ensures !s'.committed[|s.committed|].truncated ==> ReadInOrder(r, s'.committed[|s.committed|])
  {
    hide Sound, Closed, AllKnown, DepthsRight, StacksDone, ReadInOrder;
  }

  lemma {:induction false} FiledById(stacks: seq<Stack>)
    ensures Filed(ById(stacks))
  {
    if stacks != [] {
      FiledById(stacks[..|stacks| - 1]);
    }
  }
}
