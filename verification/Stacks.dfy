/** The capture of stacks: frames with their locals, and whole snapshots of one stack. */
module Stacks {
  import opened Bytes
  import opened Format
  import opened Log
  import opened Layout
  import opened Keeps
  import opened Reading
  import opened Writing
  import opened Objects
  import opened Walk
  import opened Capture
  import opened Budget
  import opened Space

  // ------------------------------------------------------------------
  // Filters
  // ------------------------------------------------------------------

  predicate Contains(s: seq<Byte>, part: seq<Byte>) {
    part <= s || (s != [] && Contains(s[1..], part))
  }

  /** Frames of files that match a filter are skipped without a trace. */
  predicate Filtered(filters: seq<Str>, path: Str) {
    exists k :: 0 <= k < |filters| && Contains(path, filters[k])
  }

  function Unfiltered(frames: seq<Frame>, filters: seq<Str>): seq<Frame> {
    if frames == [] then []
    else
      var n := |frames| - 1;
      Unfiltered(frames[..n], filters) + if Filtered(filters, frames[n].filePath) then [] else [frames[n]]
  }

  lemma {:induction false} UnfilteredPrefix(frames: seq<Frame>, filters: seq<Str>, i: nat)
    requires i <= |frames|
    ensures Unfiltered(frames[..i], filters) <= Unfiltered(frames, filters)
    decreases |frames|
  {
    hide Filtered;
    if i == |frames| {
      assert frames[..i] == frames;
    } else {
      assert frames[..|frames| - 1][..i] == frames[..i];
      UnfilteredPrefix(frames[..|frames| - 1], filters, i);
    }
  }

  lemma UnfilteredNext(frames: seq<Frame>, filters: seq<Str>, i: nat)
    requires i < |frames|
    ensures Unfiltered(frames[..i + 1], filters)
         == Unfiltered(frames[..i], filters) + if Filtered(filters, frames[i].filePath) then [] else [frames[i]]
  {
    assert frames[..i + 1][..i] == frames[..i];
  }

  method ShouldFilterFrame(filters: seq<Str>, path: Str) returns (filtered: bool)
    ensures filtered == Filtered(filters, path)
  {
    for k := 0 to |filters|
      invariant forall j :: 0 <= j < k ==> !Contains(path, filters[j])
    {
      if Contains(path, filters[k]) {
        return true;
      }
    }
    filtered := false;
  }

  // ------------------------------------------------------------------
  // One frame
  // ------------------------------------------------------------------

  ghost predicate LocalsInGraph(g: Graph, frames: seq<Frame>) {
    forall i, j :: 0 <= i < |frames| && 0 <= j < |frames[i].locals| ==> frames[i].locals[j].pythonId in g
  }

  /** Every local of the frames is in the object map, unless it is one of the few that cannot be read. */
  ghost predicate LocalsKnown(g: Graph, objects: map<U64, U64>, frames: seq<Frame>) {
    forall i, j :: 0 <= i < |frames| && 0 <= j < |frames[i].locals| ==>
      var id := frames[i].locals[j].pythonId;
      id in objects || (id in g && Unreadable(g[id]))
  }

  ghost function WithFrames(p: Pending, frames: seq<Frame>): Pending
    requires p.Pending? && p.open.OpenStack?
  {
    p.(open := p.open.(frames := p.open.frames + frames))
  }

  /** A state whose tables do not dangle. */
  ghost predicate Whole(g: Graph, s: State) {
    Sound(g, s) && Closed(g, s, [])
  }

  lemma SameTables(g: Graph, s: State, s': State, queue: seq<Item>)
    requires s'.heap == s.heap && s'.heapEnd == s.heapEnd && s'.objects == s.objects && s'.cache == s.cache
    ensures Sound(g, s') <==> Sound(g, s)
    ensures Closed(g, s', queue) <==> Closed(g, s, queue)
  {
    hide Sound, Closed;
    if Sound(g, s) {
      StaysSound(g, s, s');
    }
    if Sound(g, s') {
      StaysSound(g, s', s);
    }
    if Closed(g, s, queue) {
      StaysClosed(g, s, s', queue);
    }
    if Closed(g, s', queue) {
      StaysClosed(g, s', s, queue);
    }
  }

  lemma StaysSound(g: Graph, s: State, s': State)
    requires s'.heap == s.heap && s'.heapEnd == s.heapEnd && s'.objects == s.objects && s'.cache == s.cache
    requires Sound(g, s)
    ensures Sound(g, s')
  {
    hide Unreadable, FullRec, LimitRec, ObjectHash, SameButRepr, EncRec, IsMagic;
    forall id | id in s'.objects
      ensures id in g && (Describes(g, s', id, true) || (!IsLeaf(g[id]) && Describes(g, s', id, false)))
    {
      assert Describes(g, s, id, true) || Describes(g, s, id, false);
    }
  }

  lemma StaysClosed(g: Graph, s: State, s': State, queue: seq<Item>)
    requires s'.heap == s.heap && s'.objects == s.objects && Closed(g, s, queue)
    ensures Closed(g, s', queue)
  {
    hide Unreadable, RecChildren, InQueue;
    forall id | id in s'.objects ensures Covered(g, s', queue, s'.objects[id]) {
      assert Covered(g, s, queue, s.objects[id]);
    }
  }

  function LocalIds(locals: seq<Local>): (ids: seq<U64>)
    ensures |ids| == |locals| && forall i :: 0 <= i < |locals| ==> ids[i] == locals[i].pythonId
  {
    seq(|locals|, i requires 0 <= i < |locals| => locals[i].pythonId)
  }

  /** The walk over the objects of a frame leaves nothing of them behind. */
  lemma FrameWalked(g: Graph, s: State, f: Frame, limit: Option<nat>, steps: nat)
    requires ClosedGraph(g) && LocalsInGraph(g, [f]) && Sound(g, s)
    requires
      var end := Iterate(g, Walk(s, Queued(LocalIds(f.locals), 0), false, map[]), limit, steps);
      end.s.heapEnd <= MAX_FILE_SIZE
    ensures
      var end := Iterate(g, Walk(s, Queued(LocalIds(f.locals), 0), false, map[]), limit, steps);
      && Sound(g, end.s) && end.s.pending == s.pending && end.s.committed == s.committed
      && s.objects.Keys <= end.s.objects.Keys
      && (end.queue == [] ==> LocalsKnown(g, end.s.objects, [f]))
      && (end.queue == [] && Whole(g, s) ==> Whole(g, end.s))
  {
    hide Sound, Closed, Unreadable, Iterate, WalkOk, ClosedGraph;
    var queue := Queued(LocalIds(f.locals), 0);
    var w := Walk(s, queue, false, map[]);
    IterateKeeps(g, {}, limit, w, steps);
    forall j | 0 <= j < |f.locals|
      ensures
        var id := f.locals[j].pythonId;
        var end := Iterate(g, w, limit, steps);
        id in g && (id in end.s.objects || Unreadable(g[id]) || InQueue(end.queue, id))
    {
      assert [f][0].locals[j].pythonId in g;
      assert queue[j].id == f.locals[j].pythonId;
      QueuedIsProcessed(g, limit, w, steps, f.locals[j].pythonId);
    }
    if Whole(g, s) {
      MoreAwaited(g, s, queue);
    }
  }

  lemma MoreAwaited(g: Graph, s: State, queue: seq<Item>)
    requires Closed(g, s, []) && QueueInGraph(g, queue)
    ensures Closed(g, s, queue)
  {
    hide Unreadable, RecChildren;
    forall id | id in s.objects ensures Covered(g, s, queue, s.objects[id]) {
      assert Covered(g, s, [], s.objects[id]);
    }
  }

  // ------------------------------------------------------------------
  // Frames as a function of the tables
  // ------------------------------------------------------------------

  function FrameWalk(s: State, f: Frame): Walk {
    Walk(s, Queued(LocalIds(f.locals), 0), false, map[])
  }

  /** The heap and the tables when the objects of all these frames are in them. */
  ghost function TablesAfter(g: Graph, s: State, frames: seq<Frame>, limit: Option<nat>): State {
    if frames == [] then s
    else EndOf(g, FrameWalk(TablesAfter(g, s, frames[..|frames| - 1], limit), frames[|frames| - 1]), limit).s
  }

  /** The walk of one of these frames comes upon the depth limit. */
  ghost predicate FramesHit(g: Graph, s: State, frames: seq<Frame>, limit: Option<nat>) {
    frames != [] &&
    var before := frames[..|frames| - 1];
    FramesHit(g, s, before, limit)
      || EndOf(g, FrameWalk(TablesAfter(g, s, before, limit), frames[|frames| - 1]), limit).hit
  }

  /** What a run over frames leaves in heap and tables. Unless a walk is cut short, that is fully determined. */
  ghost predicate Grown(g: Graph, s: State, s': State, frames: seq<Frame>, limit: Option<nat>, hit: bool, cut: bool) {
    && s'.committed == s.committed && s.objects.Keys <= s'.objects.Keys
    && (Sound(g, s) ==> Sound(g, s') && LocalsKnown(g, s'.objects, frames))
    && (Whole(g, s) && !cut ==> Whole(g, s'))
    && (FramesHit(g, s, frames, limit) ==> hit)
    && (!cut ==>
        hit == FramesHit(g, s, frames, limit) && s' == TablesAfter(g, s, frames, limit).(pending := s'.pending))
  }

  lemma NothingGrown(g: Graph, s: State, limit: Option<nat>)
    ensures Grown(g, s, s, [], limit, false, false)
  {
    hide Sound, Closed, Unreadable;
  }

  /** One frame more. */
  lemma GrownFurther(g: Graph, s: State, s1: State, s2: State, frames: seq<Frame>, f: Frame, limit: Option<nat>,
                     hit: bool, newHit: bool)
    requires Grown(g, s, s1, frames, limit, hit, false) && Grown(g, s1, s2, [f], limit, newHit, false)
    ensures Grown(g, s, s2, frames + [f], limit, hit || newHit, false)
  {
    hide Sound, Closed, LocalsKnown, EndOf, FrameWalk;
    var before := TablesAfter(g, s, frames, limit);
    assert (frames + [f])[..|frames|] == frames && [f][..0] == [];
    OneFrameMore(g, before, s1, f, limit);
    if Sound(g, s) {
      MoreLocalsKnown(g, s1.objects, s2.objects, frames, f);
    }
  }

  lemma OneFrameMore(g: Graph, before: State, s1: State, f: Frame, limit: Option<nat>)
    requires s1 == before.(pending := s1.pending)
    ensures EndOf(g, FrameWalk(s1, f), limit) == WithPending(EndOf(g, FrameWalk(before, f), limit), s1.pending)
    ensures TablesAfter(g, s1, [f], limit) == EndOf(g, FrameWalk(s1, f), limit).s
    ensures FramesHit(g, s1, [f], limit) == EndOf(g, FrameWalk(s1, f), limit).hit
  {
    hide EndOf;
    EndPending(g, FrameWalk(before, f), limit, s1.pending);
    assert WithPending(FrameWalk(before, f), s1.pending) == FrameWalk(s1, f);
    assert [f][..0] == [];
  }

  lemma MoreLocalsKnown(g: Graph, objects: map<U64, U64>, objects': map<U64, U64>, frames: seq<Frame>, f: Frame)
    requires LocalsKnown(g, objects, frames) && LocalsKnown(g, objects', [f]) && objects.Keys <= objects'.Keys
    ensures LocalsKnown(g, objects', frames + [f])
  {
    hide Unreadable;
    var more := frames + [f];
    forall i, j | 0 <= i < |more| && 0 <= j < |more[i].locals|
      ensures
        var id := more[i].locals[j].pythonId;
        id in objects' || (id in g && Unreadable(g[id]))
    {
      if i < |frames| {
        assert frames[i].locals[j].pythonId in objects || Unreadable(g[frames[i].locals[j].pythonId]);
        assert frames[i].locals[j].pythonId in objects ==> frames[i].locals[j].pythonId in objects.Keys;
      } else {
        assert [f][0].locals[j].pythonId in objects' || Unreadable(g[[f][0].locals[j].pythonId]);
      }
    }
  }

  /** A frame whose walk is cut short leaves what had been reached. */
  lemma GrownThenCut(g: Graph, s: State, s1: State, s2: State, frames: seq<Frame>, limit: Option<nat>, hit: bool,
                     newHit: bool)
    requires Grown(g, s, s1, frames, limit, hit, false) && Grown(g, s1, s2, [], limit, newHit, true)
    ensures Grown(g, s, s2, frames, limit, hit || newHit, true)
  {
    hide Sound, Closed, Unreadable, FramesHit, TablesAfter;
    if Sound(g, s) {
      forall i, j | 0 <= i < |frames| && 0 <= j < |frames[i].locals|
        ensures
          var id := frames[i].locals[j].pythonId;
          id in s2.objects || (id in g && Unreadable(g[id]))
      {
        assert frames[i].locals[j].pythonId in s1.objects ==> frames[i].locals[j].pythonId in s1.objects.Keys;
      }
    }
  }

  // ------------------------------------------------------------------
  // One frame through the writer
  // ------------------------------------------------------------------

  function LocalSet(f: Frame): set<U64> {
    set l | l in f.locals :: l.pythonId
  }

  /** A frame, or an object that its locals lead to, was next, and there was no room for it. */
  ghost predicate GaveOut(w: SnapshotWriter, g: Graph, frames: seq<Frame>, since: nat)
    reads w, w.mem
  {
    exists f :: f in frames && (w.Lacks(WriteFrame(f), since) || LacksRecord(w, g, LocalSet(f), since))
  }

  /** Write a frame, and remember where it starts. */
  method BeginFrame(w: SnapshotWriter, g: Graph, f: Frame) returns (o: Outcome, saved: nat)
    requires w.Valid() && w.initialized && HasOpenStack(w.st)
    modifies w, w.mem, w.reader
    ensures Carried(w) && HasOpenStack(w.st)
    ensures o.Done? ==>
      && w.st == old(w.st).(pending := WithFrames(old(w.st).pending, [f])) && w.st.pending.open.frames != []
      && saved == BeforeLastFrame(w.C(), w.st)
      && Spent(g, old(w.st), old(w.heapStart), w.st, w.heapStart, |EncFrame(f)|)
    ensures o.Failed? ==> w.st == old(w.st) && o == Failed(OutOfSpace) && w.Lacks(WriteFrame(f), old(w.attempts))
    ensures o.Failed? ==> NoRoom(w, old(w.attempts), Room(g, old(w.st), old(w.heapStart), |EncFrame(f)|))
  {
    hide Inv, Growth, Stepped, BeforeLastFrame, EncFrame, Bill, HeapBill, Room, Needed;
    ghost var s, img, c, snaps := w.st, w.mem[..], w.C(), w.snaps;
    saved := w.writeOffset;
    o := w.WriteFrameRecord(f);
    FrameStepped(s, f, w.st, o);
    FrameBill(g, s, f);
    if o.Failed? {
      RecordsFit(g, img, c, snaps, s, WriteFrame(f), |EncFrame(f)|);
    } else {
      CallSpends(g, img, c, snaps, s, WriteFrame(f), w.st, w.heapStart, |EncFrame(f)|);
    }
  }

  lemma FrameBill(g: Graph, s: State, f: Frame)
    requires HasOpenStack(s)
    ensures
      var s' := s.(pending := WithFrames(s.pending, [f]));
      Bill(g, s') == Bill(g, s) + |EncFrame(f)| && HeapBill(g, s') == HeapBill(g, s)
    ensures RecordsEnd(s) + RecordBytes(s, WriteFrame(f)) <= Bill(g, s) + |EncFrame(f)|
  {
    hide EncFrame, HeapBytes, LogSize;
    CatOne(EncFrame, s.pending.open.frames, f);
  }

  /** Undo the frame if its walk was cut short. */
  method EndFrame(w: SnapshotWriter, g: Graph, f: Frame, saved: nat, completed: bool, ghost s: State)
    requires w.Valid() && w.initialized && HasOpenStack(s) && w.st.pending == WithFrames(s.pending, [f])
    requires Saves(w, saved)
    modifies w
    ensures Carried(w) && w.heapStart == old(w.heapStart) && w.mem == old(w.mem) && w.reader == old(w.reader)
    ensures w.st == old(w.st).(pending := WithFrames(s.pending, if completed then [f] else []))
  {
    hide Inv, Growth, Stepped, BeforeLastFrame;
    if !completed {
      ghost var s2 := w.st;
      w.RollbackWriteOffset(saved);
      RolledBack(s, f, s2, w.st);
    }
  }

  /** What the write offset was before the last frame. */
  ghost predicate Saves(w: SnapshotWriter, saved: nat)
    reads w
  {
    HasOpenStack(w.st) && w.st.pending.open.frames != [] && saved == BeforeLastFrame(w.C(), w.st)
  }

  /** The objects that the locals of the last frame lead to. */
  method WalkFrame(w: SnapshotWriter, g: Graph, f: Frame, limit: Option<nat>, cancel: CancelFlag, ghost saved: nat)
    returns (o: Outcome, completed: bool, hit: bool, ghost steps: nat)
    requires w.Valid() && w.initialized && Saves(w, saved) && ClosedGraph(g) && LocalsInGraph(g, [f])
    requires cancel.Valid() && !cancel.Seen()
    modifies w, w.mem, w.reader, cancel
    ensures Kept(w) && Saves(w, saved) && cancel.Valid()
    ensures w.st.pending == old(w.st).pending && w.st.committed == old(w.st).committed && w.st.heapEnd <= MAX_FILE_SIZE
    ensures w.st == Iterate(g, FrameWalk(old(w.st), f), limit, steps).s
    ensures o.Done? ==>
      Walked(g, FrameWalk(old(w.st), f), limit, steps, w.st, completed, hit)
        && cancel.Looked(StepsOf(g, FrameWalk(old(w.st), f), limit))
    ensures o.Done? ==> completed == !cancel.Seen() == !cancel.cut
    ensures o.Failed? ==> o == Failed(OutOfSpace) && LacksRecord(w, g, LocalSet(f), old(w.attempts))
    ensures o.Failed? ==> NoRoom(w, old(w.attempts), Room(g, old(w.st), old(w.heapStart), 0))
  {
    hide Inv, Growth, Iterate, ClosedGraph, LocalsInGraph, LacksRecord, FromRoots, Walked, StepsOf, BeforeLastFrame,
         Room, SnapshotWriter.Valid;
    ghost var s1, c1 := w.st, w.C();
    var queue := Enqueue([], LocalIds(f.locals), 0);
    assert queue == Queued(LocalIds(f.locals), 0);
    LocalsQueued(g, f);
    o, completed, hit, steps := ProcessFrameObjects(w, g, queue, limit, cancel, map[], LocalSet(f));
    FrameLeaves(w, g, s1, f, limit, steps, c1);
  }

  /**
   * Write a frame, then the objects its locals lead to. If the walk is cancelled, the frame is taken
   * back; the objects that were already written stay in the heap and in the tables.
   */
  method CaptureFrame(w: SnapshotWriter, g: Graph, f: Frame, limit: Option<nat>, cancel: CancelFlag)
    returns (o: Outcome, completed: bool, hit: bool)
    requires w.Valid() && w.initialized && HasOpenStack(w.st) && ClosedGraph(g) && LocalsInGraph(g, [f])
    requires cancel.Valid() && !cancel.Seen()
    modifies w, w.mem, w.reader, cancel
    ensures Carried(w) && HasOpenStack(w.st) && w.st.committed == old(w.st).committed && cancel.Valid()
    ensures o.Done? ==> FrameCaptured(g, old(w.st), w.st, f, limit, completed, hit)
    ensures o.Done? ==>
      completed == !cancel.Seen() == !cancel.cut && cancel.Looked(StepsOf(g, FrameWalk(old(w.st), f), limit))
    ensures o.Done? ==> Spent(g, old(w.st), old(w.heapStart), w.st, w.heapStart, |EncFrame(f)|)
    ensures o.Failed? ==> o == Failed(OutOfSpace) && GaveOut(w, g, [f], old(w.attempts))
    ensures o.Failed? ==> NoRoom(w, old(w.attempts), Room(g, old(w.st), old(w.heapStart), |EncFrame(f)|))
  {
    hide Inv, Growth, Iterate, ClosedGraph, LocalsInGraph, FrameCaptured, LacksRecord, Walked, StepsOf, BeforeLastFrame,
         FrameWalk, EncFrame, Spent, Room, GaveOut, SnapshotWriter.Valid, SnapshotWriter.Lacks;
    ghost var s, hs, since := w.st, w.heapStart, w.attempts;
    completed, hit := false, false;
    var saved;
    o, saved := BeginFrame(w, g, f);
    if o.Failed? {
      GaveOutAt(w, g, f, since, since);
      return;
    }
    ghost var s1, h1, since1 := w.st, w.heapStart, w.attempts;
    WalkApart(g, s, s1, f, limit);
    ghost var steps;
    o, completed, hit, steps := WalkFrame(w, g, f, limit, cancel, saved);
    if o.Failed? {
      RoomFromStart(g, s, hs, s1, h1, |EncFrame(f)|, 0);
      GaveOutAt(w, g, f, since1, since);
      return;
    }
    ghost var s2 := w.st;
    EndFrame(w, g, f, saved, completed, s);
    FrameCapturedSo(g, s, f, limit, steps, s1, s2, w.st, completed, hit);
    FrameSpent(g, s, hs, f, limit, steps, s1, h1, s2, w.st, completed);
  }

  lemma GaveOutAt(w: SnapshotWriter, g: Graph, f: Frame, since: nat, since0: nat)
    requires since0 <= since && (w.Lacks(WriteFrame(f), since) || LacksRecord(w, g, LocalSet(f), since))
    ensures GaveOut(w, g, [f], since0)
  {
    hide LacksRecord, LocalSet, SnapshotWriter.Lacks;
    assert f in [f];
    if w.Lacks(WriteFrame(f), since) {
      LacksBefore(w, WriteFrame(f), since, since0);
    } else {
      LackedBefore(w, g, LocalSet(f), since, since0);
    }
  }

  lemma LacksBefore(w: SnapshotWriter, op: Op, since: nat, since0: nat)
    requires w.Lacks(op, since) && since0 <= since
    ensures w.Lacks(op, since0)
  {
    hide Needed;
  }

  lemma LackedBefore(w: SnapshotWriter, g: Graph, roots: set<U64>, since: nat, since0: nat)
    requires LacksRecord(w, g, roots, since) && since0 <= since
    ensures LacksRecord(w, g, roots, since0)
  {
    hide Level, RecordOf;
    var id, rec, k :| id in Level(g, roots, k) && RecordOf(g, id, rec) && w.Lacks(Write(rec), since);
    assert w.Lacks(Write(rec), since0);
  }

  /** Only the pending part differs between the walk of a frame and the same walk before the frame was written. */
  lemma WalkApart(g: Graph, s: State, s1: State, f: Frame, limit: Option<nat>)
    requires s1 == s.(pending := s1.pending)
    ensures FrameWalk(s1, f) == WithPending(FrameWalk(s, f), s1.pending)
    ensures StepsOf(g, FrameWalk(s1, f), limit) == StepsOf(g, FrameWalk(s, f), limit)
  {
    hide StepsOf;
    StepsPending(g, FrameWalk(s, f), limit, s1.pending);
  }

  lemma FrameLeaves(w: SnapshotWriter, g: Graph, s1: State, f: Frame, limit: Option<nat>, steps: nat, c1: Counters)
    requires w.Valid() && w.initialized && w.st == Iterate(g, FrameWalk(s1, f), limit, steps).s
    requires HasOpenStack(s1) && s1.pending.open.frames != [] && c1.stackPos == w.currentStacktracePos
    ensures w.st.heapEnd <= MAX_FILE_SIZE && w.st.pending == s1.pending && w.st.committed == s1.committed
    ensures Saves(w, BeforeLastFrame(c1, s1))
  {
    hide Inv, Growth, Iterate, BeforeLastFrame;
    HeapFits(w.mem[..], w.C(), w.snaps, w.st);
    IterateLeaves(g, FrameWalk(s1, f), limit, steps);
    SameFrameStart(c1, s1, w.C(), w.st);
  }

  /** The walk takes nothing more, and taking the frame back leaves less. */
  lemma FrameSpent(g: Graph, s: State, hs: nat, f: Frame, limit: Option<nat>, steps: nat, s1: State, h1: nat, s2: State,
                   s': State, completed: bool)
    requires HasOpenStack(s) && s2.pending == WithFrames(s.pending, [f]) && Spent(g, s, hs, s1, h1, |EncFrame(f)|)
    requires s2 == Iterate(g, FrameWalk(s1, f), limit, steps).s
    requires s' == s2.(pending := WithFrames(s.pending, if completed then [f] else []))
    ensures Spent(g, s, hs, s', h1, |EncFrame(f)|)
  {
    hide EncFrame, Spent, Iterate;
    WalkPaid(g, FrameWalk(s1, f), limit, steps, h1);
    SpentFurther(g, s, hs, s1, h1, s2, h1, |EncFrame(f)|, 0);
    BackSpent(g, s, hs, f, s2, s', h1, completed);
  }

  lemma BackSpent(g: Graph, s: State, hs: nat, f: Frame, s2: State, s': State, h': nat, completed: bool)
    requires HasOpenStack(s) && s2.pending == WithFrames(s.pending, [f]) && Spent(g, s, hs, s2, h', |EncFrame(f)|)
    requires s' == s2.(pending := WithFrames(s.pending, if completed then [f] else []))
    ensures Spent(g, s, hs, s', h', |EncFrame(f)|)
  {
    hide EncFrame, HeapBytes, LogSize;
    CatOne(EncFrame, s.pending.open.frames, f);
    assert s.pending.open.frames + [] == s.pending.open.frames;
  }

  /** Some of the steps of the walk of a frame have been taken. */
  ghost predicate PartlyWalked(g: Graph, s: State, s': State, f: Frame, limit: Option<nat>, n: nat, hit: bool) {
    var end := Iterate(g, FrameWalk(s, f), limit, n);
    0 < n <= StepsOf(g, FrameWalk(s, f), limit) && s' == end.s.(pending := s'.pending) && hit == end.hit
  }

  /** What one captured, or cancelled, frame means for the log. */
  ghost predicate FrameCaptured(g: Graph, s: State, s': State, f: Frame, limit: Option<nat>, completed: bool, hit: bool)
  {
    && HasOpenStack(s) && s'.pending == WithFrames(s.pending, if completed then [f] else [])
    && Grown(g, s, s', if completed then [f] else [], limit, hit, !completed)
    && (!completed ==> exists n :: PartlyWalked(g, s, s', f, limit, n, hit))
  }

  lemma FrameStepped(s: State, f: Frame, s': State, o: Outcome)
    requires HasOpenStack(s) && Stepped(s, WriteFrame(f), s', o)
    ensures o.Failed? ==> s' == s && o == Failed(OutOfSpace)
    ensures o.Done? ==>
      s' == s.(pending := WithFrames(s.pending, [f])) && HasOpenStack(s') && s'.pending.open.frames != []
  {
  }

  lemma LocalsQueued(g: Graph, f: Frame)
    requires LocalsInGraph(g, [f])
    ensures QueueInGraph(g, Queued(LocalIds(f.locals), 0)) && FromRoots(g, LocalSet(f), Queued(LocalIds(f.locals), 0))
  {
    forall j | 0 <= j < |f.locals| ensures Queued(LocalIds(f.locals), 0)[j].id in Level(g, LocalSet(f), 0) {
      assert f.locals[j] in f.locals;
    }
    forall j | 0 <= j < |f.locals| ensures Queued(LocalIds(f.locals), 0)[j].id in g {
      assert [f][0].locals[j].pythonId in g;
    }
  }

  lemma {:induction false} IterateLeaves(g: Graph, w: Walk, limit: Option<nat>, n: nat)
    ensures Iterate(g, w, limit, n).s.pending == w.s.pending && Iterate(g, w, limit, n).s.committed == w.s.committed
    ensures w.s.objects.Keys <= Iterate(g, w, limit, n).s.objects.Keys
  {
    hide Advance;
    if n > 0 {
      IterateLeaves(g, w, limit, n - 1);
      AdvanceGrows(g, Iterate(g, w, limit, n - 1), limit);
    }
  }

  lemma SameFrameStart(c: Counters, s: State, c': Counters, s': State)
    requires c'.stackPos == c.stackPos && s'.pending == s.pending && HasOpenStack(s) && s.pending.open.frames != []
    ensures BeforeLastFrame(c', s') == BeforeLastFrame(c, s)
  {
  }

  /** Taking back the frame just written leaves the open stacktrace as it was before. */
  lemma RolledBack(s: State, f: Frame, s2: State, s3: State)
    requires HasOpenStack(s) && s2.pending == WithFrames(s.pending, [f]) && Stepped(s2, RollbackFrame, s3, Done)
    ensures s3 == s2.(pending := WithFrames(s.pending, []))
  {
    var frames := s.pending.open.frames;
    assert (frames + [f])[..|frames|] == frames == frames + [];
  }

  lemma FrameCapturedSo(g: Graph, s: State, f: Frame, limit: Option<nat>, steps: nat, s1: State, s2: State, s': State,
                        completed: bool, hit: bool)
    requires ClosedGraph(g) && LocalsInGraph(g, [f]) && HasOpenStack(s)
    requires s1 == s.(pending := WithFrames(s.pending, [f]))
    requires Walked(g, FrameWalk(s1, f), limit, steps, s2, completed, hit) && s2.heapEnd <= MAX_FILE_SIZE
    requires s' == s2.(pending := WithFrames(s.pending, if completed then [f] else []))
    ensures FrameCaptured(g, s, s', f, limit, completed, hit)
  {
    hide Iterate, ClosedGraph, LocalsInGraph, StepsOf, FrameWalk, Grown;
    FrameGrown(g, s, f, limit, steps, s1, s2, s', completed, hit);
    if !completed {
      WalkApart(g, s, s1, f, limit);
      IteratePending(g, FrameWalk(s, f), limit, s1.pending, steps);
      assert PartlyWalked(g, s, s', f, limit, steps, hit);
    }
  }

  lemma FrameGrown(g: Graph, s: State, f: Frame, limit: Option<nat>, steps: nat, s1: State, s2: State, s': State,
                   completed: bool, hit: bool)
    requires ClosedGraph(g) && LocalsInGraph(g, [f]) && s1 == s.(pending := s1.pending)
    requires Walked(g, FrameWalk(s1, f), limit, steps, s2, completed, hit) && s2.heapEnd <= MAX_FILE_SIZE
    requires s' == s2.(pending := s'.pending)
    ensures Grown(g, s, s', if completed then [f] else [], limit, hit, !completed)
  {
    hide Sound, Whole, Iterate, ClosedGraph, LocalsInGraph, LocalsKnown, EndOf, StepsOf, FrameWalk, FramesHit,
         TablesAfter;
    IterateLeaves(g, FrameWalk(s1, f), limit, steps);
    FrameLeft(s1, f);
    FrameSound(g, s, f, limit, steps, s1, s2, s', completed);
    NothingHit(g, s, limit);
    if completed {
      LocalsQueued(g, f);
      FrameEnd(g, s, f, limit, steps, s1);
    }
  }

  lemma FrameLeft(s1: State, f: Frame)
    ensures FrameWalk(s1, f).s == s1
  {
  }

  lemma NothingHit(g: Graph, s: State, limit: Option<nat>)
    ensures !FramesHit(g, s, [], limit)
  {
  }

  /** The walk of a frame keeps the tables sound, and whole if it is not cut short. */
  lemma FrameSound(g: Graph, s: State, f: Frame, limit: Option<nat>, steps: nat, s1: State, s2: State, s': State,
                   completed: bool)
    requires ClosedGraph(g) && LocalsInGraph(g, [f]) && s1 == s.(pending := s1.pending)
    requires s' == s2.(pending := s'.pending)
    requires s2 == Iterate(g, FrameWalk(s1, f), limit, steps).s && s2.heapEnd <= MAX_FILE_SIZE
    requires completed ==> Iterate(g, FrameWalk(s1, f), limit, steps).queue == []
    ensures Sound(g, s) ==> Sound(g, s') && LocalsKnown(g, s'.objects, if completed then [f] else [])
    ensures Whole(g, s) && completed ==> Whole(g, s')
  {
    hide Sound, Closed, Iterate, ClosedGraph, LocalsInGraph, LocalsKnown;
    SameTables(g, s, s1, []);
    SameTables(g, s2, s', []);
    NoLocals(g, s'.objects);
    if Sound(g, s) {
      FrameWalked(g, s1, f, limit, steps);
    }
  }

  /** Where the walk of a frame ends, in terms of the state before the frame. */
  lemma FrameEnd(g: Graph, s: State, f: Frame, limit: Option<nat>, steps: nat, s1: State)
    requires ClosedGraph(g) && QueueInGraph(g, Queued(LocalIds(f.locals), 0)) && s1 == s.(pending := s1.pending)
    requires Iterate(g, FrameWalk(s1, f), limit, steps).queue == []
    ensures
      var end := Iterate(g, FrameWalk(s1, f), limit, steps);
      end.s == TablesAfter(g, s, [f], limit).(pending := end.s.pending) && end.hit == FramesHit(g, s, [f], limit)
  {
    hide Iterate, ClosedGraph, EndOf, TablesAfter, FramesHit;
    EndReached(g, FrameWalk(s1, f), limit, steps);
    OneFrameMore(g, s, s1, f, limit);
    OneFrameMore(g, s, s, f, limit);
  }

  lemma NoLocals(g: Graph, objects: map<U64, U64>)
    ensures LocalsKnown(g, objects, [])
  {
  }

  // ------------------------------------------------------------------
  // The frames of a stack
  // ------------------------------------------------------------------

  /** What a run over frames is asked for: the frames, innermost first, and the limits. */
  datatype Order = Order(frames: seq<Frame>, filters: seq<Str>, maxFrames: Option<nat>, limit: Option<nat>)

  /** What a run over the frames of one stack tells its caller. */
  datatype Frames = Frames(truncated: bool, hit: bool)

  function All(order: Order): seq<Frame> {
    Unfiltered(order.frames, order.filters)
  }

  /** How many frames are kept if nobody cancels, on top of `already`. */
  function Quota(order: Order, already: nat): nat {
    var n := |All(order)|;
    if order.maxFrames.None? || already + n <= order.maxFrames.value then n
    else if order.maxFrames.value <= already then 0 else order.maxFrames.value - already
  }

  /** The limit is reached with a frame still to come, if only one that a filter will drop. */
  predicate Overflows(order: Order, already: nat) {
    && order.maxFrames.Some? && order.frames != []
    && already + |Unfiltered(order.frames[..|order.frames| - 1], order.filters)| >= order.maxFrames.value
  }

  /**
   * The records: which frames were kept, and that the flag is set exactly if the cancel flag was seen or the
   * limit stopped the run.
   */
  ghost predicate FramesKept(s: State, s': State, order: Order, truncated: bool, seen: bool) {
    && HasOpenStack(s) && HasOpenStack(s') && |s.pending.open.frames| <= |s'.pending.open.frames|
    && var already := |s.pending.open.frames|;
       var count := |s'.pending.open.frames| - already;
       && count <= Quota(order, already) <= |All(order)| && s'.pending == WithFrames(s.pending, All(order)[..count])
       && (!seen ==> count == Quota(order, already))
       && (truncated <==> seen || Overflows(order, already))
  }

  ghost function KeptFrames(s: State, s': State): seq<Frame>
    requires HasOpenStack(s) && HasOpenStack(s') && |s.pending.open.frames| <= |s'.pending.open.frames|
  {
    s'.pending.open.frames[|s.pending.open.frames|..]
  }

  ghost predicate FramesCaptured(g: Graph, s: State, s': State, order: Order, r: Frames, seen: bool, cut: bool) {
    && (cut ==> seen)
    && FramesKept(s, s', order, r.truncated, seen)
    && Grown(g, s, s', KeptFrames(s, s'), order.limit, r.hit, cut)
    && (cut ==> CutAfter(g, s, s', KeptFrames(s, s'), order, r.hit))
  }

  /** The walk that was cut short is that of the frame behind those kept. */
  ghost predicate CutAfter(g: Graph, s: State, s': State, kept: seq<Frame>, order: Order, hit: bool) {
    |kept| < |All(order)| &&
    exists n, newHit :: hit == (FramesHit(g, s, kept, order.limit) || newHit)
      && PartlyWalked(g, TablesAfter(g, s, kept, order.limit), s', All(order)[|kept|], order.limit, n, newHit)
  }

  function Prefix(order: Order, i: nat): Order
    requires i <= |order.frames|
  {
    order.(frames := order.frames[..i])
  }

  lemma NoFrames(g: Graph, s: State, order: Order)
    requires HasOpenStack(s) && order.frames == []
    ensures FramesCaptured(g, s, s, order, Frames(false, false), false, false)
  {
    hide Grown;
    assert s.pending.open.frames + [] == s.pending.open.frames && KeptFrames(s, s) == [];
    NothingGrown(g, s, order.limit);
  }

  /** As long as neither limit nor flag has stopped the run, everything that passes the filters has been kept. */
  lemma AllKept(s: State, s': State, order: Order)
    requires FramesKept(s, s', order, false, false)
    ensures s'.pending == WithFrames(s.pending, All(order)) && KeptFrames(s, s') == All(order)
  {
    if order.frames != [] {
      var n := |order.frames| - 1;
      UnfilteredNext(order.frames, order.filters, n);
      assert order.frames[..n + 1] == order.frames;
    }
    assert All(order)[..|All(order)|] == All(order);
  }

  lemma KeptSo(s: State, s1: State, s2: State, order: Order, i: nat)
    requires i < |order.frames| && FramesKept(s, s1, Prefix(order, i), false, false)
    requires order.maxFrames.Some? ==> |s1.pending.open.frames| < order.maxFrames.value
    ensures
      var f, dropped := order.frames[i], Filtered(order.filters, order.frames[i].filePath);
      && All(Prefix(order, i + 1)) == All(Prefix(order, i)) + (if dropped then [] else [f])
      && (s2 == s1 && dropped ==> FramesKept(s, s1, Prefix(order, i + 1), false, false))
      && (s2.pending == WithFrames(s1.pending, [f]) && !dropped ==>
          FramesKept(s, s2, Prefix(order, i + 1), false, false))
  {
    hide Filtered, Unfiltered;
    var next, f := Prefix(order, i + 1), order.frames[i];
    AllKept(s, s1, Prefix(order, i));
    UnfilteredNext(order.frames, order.filters, i);
    assert next.frames[..i] == order.frames[..i];
    var frames, all := s.pending.open.frames, All(Prefix(order, i));
    assert frames + all + [f] == frames + (all + [f]) && (all + [f])[..|all| + 1] == all + [f] && all[..|all|] == all;
  }

  /** A frame is dropped by a filter. */
  lemma FrameDropped(g: Graph, s: State, s': State, order: Order, i: nat, r: Frames)
    requires i < |order.frames| && FramesCaptured(g, s, s', Prefix(order, i), r, false, false) && !r.truncated
    requires order.maxFrames.Some? ==> |s'.pending.open.frames| < order.maxFrames.value
    requires Filtered(order.filters, order.frames[i].filePath)
    ensures FramesCaptured(g, s, s', Prefix(order, i + 1), r, false, false)
  {
    hide Grown, FramesKept, Filtered;
    KeptSo(s, s', s', order, i);
  }

  /** A frame is kept. */
  lemma FrameAdded(g: Graph, s: State, s1: State, s2: State, order: Order, i: nat, r: Frames, hit: bool)
    requires i < |order.frames| && FramesCaptured(g, s, s1, Prefix(order, i), r, false, false) && !r.truncated
    requires order.maxFrames.Some? ==> |s1.pending.open.frames| < order.maxFrames.value
    requires !Filtered(order.filters, order.frames[i].filePath)
    requires FrameCaptured(g, s1, s2, order.frames[i], order.limit, true, hit)
    ensures FramesCaptured(g, s, s2, Prefix(order, i + 1), Frames(false, r.hit || hit), false, false)
  {
    hide Grown, Filtered, Unfiltered, Quota, Overflows;
    KeptSo(s, s1, s2, order, i);
    AllKept(s, s1, Prefix(order, i));
    AllKept(s, s2, Prefix(order, i + 1));
    GrownFurther(g, s, s1, s2, All(Prefix(order, i)), order.frames[i], order.limit, r.hit, hit);
  }

  /** The walk of a frame is cut short: the frame is taken back, and the run ends. */
  lemma FrameCut(g: Graph, s: State, s1: State, s2: State, order: Order, i: nat, r: Frames, hit: bool)
    requires i < |order.frames| && FramesCaptured(g, s, s1, Prefix(order, i), r, false, false) && !r.truncated
    requires !Filtered(order.filters, order.frames[i].filePath)
    requires FrameCaptured(g, s1, s2, order.frames[i], order.limit, false, hit)
    ensures FramesCaptured(g, s, s2, order, Frames(true, r.hit || hit), true, true)
  {
    hide Grown, Unfiltered, Quota, Overflows, Filtered, CutAfter, FramesHit, TablesAfter;
    AllKept(s, s1, Prefix(order, i));
    var frames, all := s.pending.open.frames, All(Prefix(order, i));
    assert frames + all + [] == frames + all;
    KeptIsPart(s, s1, s2, order, i, true);
    assert KeptFrames(s, s2) == all;
    GrownThenCut(g, s, s1, s2, all, order.limit, r.hit, hit);
    WhereCut(g, s, s1, s2, order, i, r.hit, hit);
  }

  lemma WhereCut(g: Graph, s: State, s1: State, s2: State, order: Order, i: nat, before: bool, hit: bool)
    requires i < |order.frames| && !Filtered(order.filters, order.frames[i].filePath)
    requires Grown(g, s, s1, All(Prefix(order, i)), order.limit, before, false)
    requires FrameCaptured(g, s1, s2, order.frames[i], order.limit, false, hit)
    ensures CutAfter(g, s, s2, All(Prefix(order, i)), order, before || hit)
  {
    hide Sound, Closed, LocalsKnown, FramesHit, TablesAfter, Unfiltered, Filtered, PartlyWalked;
    var kept, f := All(Prefix(order, i)), order.frames[i];
    NextKept(order, i);
    var n :| PartlyWalked(g, s1, s2, f, order.limit, n, hit);
    PartlyWalkedApart(g, TablesAfter(g, s, kept, order.limit), s1, s2, f, order.limit, n, hit);
  }

  /** The next frame that passes the filters is the next to be kept. */
  lemma NextKept(order: Order, i: nat)
    requires i < |order.frames| && !Filtered(order.filters, order.frames[i].filePath)
    ensures |All(Prefix(order, i))| < |All(order)| && All(order)[|All(Prefix(order, i))|] == order.frames[i]
    ensures All(Prefix(order, i + 1)) == All(Prefix(order, i)) + [order.frames[i]] <= All(order)
  {
    hide Filtered;
    UnfilteredNext(order.frames, order.filters, i);
    UnfilteredPrefix(order.frames, order.filters, i + 1);
  }

  lemma PartlyWalkedApart(g: Graph, t: State, s: State, s': State, f: Frame, limit: Option<nat>, n: nat, hit: bool)
    requires s == t.(pending := s.pending) && PartlyWalked(g, s, s', f, limit, n, hit)
    ensures PartlyWalked(g, t, s', f, limit, n, hit)
  {
    hide Iterate, StepsOf;
    WalkApart(g, t, s, f, limit);
    IteratePending(g, FrameWalk(t, f), limit, s.pending, n);
  }

  lemma PartSizes(order: Order, i: nat)
    requires i < |order.frames|
    ensures All(Prefix(order, i)) <= All(order)
    ensures |All(Prefix(order, i))| <= |Unfiltered(order.frames[..|order.frames| - 1], order.filters)|
    ensures i > 0 ==> |All(Prefix(order, i))| <= |Unfiltered(Prefix(order, i).frames[..i - 1], order.filters)| + 1
  {
    var n := |order.frames| - 1;
    UnfilteredPrefix(order.frames, order.filters, i);
    assert order.frames[..n][..i] == order.frames[..i];
    UnfilteredPrefix(order.frames[..n], order.filters, i);
    if i > 0 {
      assert order.frames[..i][..i - 1] == order.frames[..i - 1];
      UnfilteredNext(order.frames, order.filters, i - 1);
    }
  }

  /** Stopping before a frame, because of the flag or the limit, leaves what was kept before it. */
  lemma KeptIsPart(s: State, s1: State, s2: State, order: Order, i: nat, seen: bool)
    requires i < |order.frames| && FramesKept(s, s1, Prefix(order, i), false, false) && s2.pending == s1.pending
    requires seen || (order.maxFrames.Some? && |s1.pending.open.frames| >= order.maxFrames.value)
    ensures FramesKept(s, s2, order, true, seen)
  {
    hide Unfiltered;
    AllKept(s, s1, Prefix(order, i));
    PartSizes(order, i);
    var all, kept := All(order), All(Prefix(order, i));
    assert all[..|kept|] == kept;
  }

  lemma StoppedShort(g: Graph, s: State, s1: State, order: Order, i: nat, r: Frames, seen: bool)
    requires i < |order.frames| && FramesCaptured(g, s, s1, Prefix(order, i), r, false, false) && !r.truncated
    requires seen || (order.maxFrames.Some? && |s1.pending.open.frames| >= order.maxFrames.value)
    ensures FramesCaptured(g, s, s1, order, r.(truncated := true), seen, false)
  {
    hide Grown, FramesKept;
    KeptIsPart(s, s1, s1, order, i, seen);
  }

  /** The frame counter of the writer counts the frames of the open stacktrace. */
  lemma FrameCount(img: seq<Byte>, c: Counters, snaps: seq<Snap>, s: State)
    requires Inv(img, c, snaps, s)
    ensures HasOpenStack(s) ==> c.frameCount == |s.pending.open.frames|
    ensures s.pending.Pending? ==> c.stackCount == |s.pending.stacks|
  {
    InvFlags(img, c, snaps, s);
  }

  // ------------------------------------------------------------------
  // How often a run looks at the cancel flag
  // ------------------------------------------------------------------

  predicate LimitAt(order: Order, already: nat, i: nat)
    requires i <= |order.frames|
  {
    order.maxFrames.Some? && already + |All(Prefix(order, i))| >= order.maxFrames.value
  }

  /** The frame, from the i-th on, at which the limit stops the run, or the number of frames. */
  function StopsAt(order: Order, already: nat, i: nat): (n: nat)
    requires i <= |order.frames|
    ensures i <= n <= |order.frames|
    decreases |order.frames| - i
  {
    if i == |order.frames| || LimitAt(order, already, i) then i else StopsAt(order, already, i + 1)
  }

  /** The looks before the i-th frame is looked at: one for each frame, and one for each object of its walk. */
  ghost function LooksBefore(g: Graph, s: State, order: Order, i: nat): nat
    requires i <= |order.frames|
  {
    if i == 0 then 0
    else
      var f := order.frames[i - 1];
      LooksBefore(g, s, order, i - 1) + 1
        + if Filtered(order.filters, f.filePath) then 0
          else StepsOf(g, FrameWalk(TablesAfter(g, s, All(Prefix(order, i - 1)), order.limit), f), order.limit)
  }

  /** The looks of a whole run. */
  ghost function LooksFor(g: Graph, s: State, order: Order, already: nat): nat {
    var n := StopsAt(order, already, 0);
    LooksBefore(g, s, order, n) + if n < |order.frames| then 1 else 0
  }

  lemma {:induction false} LooksGrow(g: Graph, s: State, order: Order, i: nat, j: nat)
    requires i <= j <= |order.frames|
    ensures LooksBefore(g, s, order, i) + (j - i) <= LooksBefore(g, s, order, j)
    decreases j
  {
    hide Filtered, StepsOf, TablesAfter, Unfiltered;
    if i < j {
      LooksGrow(g, s, order, i, j - 1);
    }
  }

  /** A run that has come to the i-th frame has as many looks to take yet as the limit leaves. */
  lemma LooksLeft(g: Graph, s: State, order: Order, already: nat, i: nat)
    requires i < |order.frames| && StopsAt(order, already, 0) == StopsAt(order, already, i)
    ensures LooksBefore(g, s, order, i) < LooksFor(g, s, order, already)
    ensures LimitAt(order, already, i) ==> LooksFor(g, s, order, already) == LooksBefore(g, s, order, i) + 1
    ensures !LimitAt(order, already, i) ==>
      LooksBefore(g, s, order, i + 1) <= LooksFor(g, s, order, already)
        && StopsAt(order, already, i + 1) == StopsAt(order, already, i)
  {
    hide LimitAt, LooksBefore;
    var n := StopsAt(order, already, 0);
    LooksGrow(g, s, order, i, n);
    if !LimitAt(order, already, i) {
      LooksGrow(g, s, order, i + 1, n);
    }
  }

  /** Only the pending part of the log differs. */
  lemma {:induction false} LooksApart(g: Graph, s: State, s1: State, order: Order, i: nat)
    requires s1 == s.(pending := s1.pending) && i <= |order.frames|
    ensures LooksBefore(g, s1, order, i) == LooksBefore(g, s, order, i)
  {
    hide Filtered, StepsOf, TablesAfter, Unfiltered, FramesHit;
    if i > 0 {
      var kept := All(Prefix(order, i - 1));
      LooksApart(g, s, s1, order, i - 1);
      FromBegun(g, s, s1, kept, order.limit);
      WalkApart(g, TablesAfter(g, s, kept, order.limit), TablesAfter(g, s1, kept, order.limit), order.frames[i - 1],
                order.limit);
    }
  }

  // ------------------------------------------------------------------
  // A run over frames
  // ------------------------------------------------------------------

  /** The run has come to the i-th frame: nothing has stopped it yet. */
  ghost predicate RunAt(g: Graph, s: State, hs: nat, s': State, hs': nat, order: Order, i: nat, r: Frames, looks: nat) {
    && i <= |order.frames| && HasOpenStack(s) && HasOpenStack(s') && !r.truncated
    && FramesCaptured(g, s, s', Prefix(order, i), r, false, false)
    && Spent(g, s, hs, s', hs', |Cat(EncFrame, All(Prefix(order, i)))|)
    && looks == LooksBefore(g, s, order, i)
    && StopsAt(order, |s.pending.open.frames|, 0) == StopsAt(order, |s.pending.open.frames|, i)
  }

  lemma RunStarts(g: Graph, s: State, hs: nat, order: Order)
    requires HasOpenStack(s)
    ensures RunAt(g, s, hs, s, hs, order, 0, Frames(false, false), 0)
  {
    hide FramesCaptured, Spent;
    NoFrames(g, s, Prefix(order, 0));
    NothingTakes();
    NothingSpent(g, s, hs);
  }

  /** How many frames there are by now. */
  lemma RunCounts(g: Graph, s: State, hs: nat, s': State, hs': nat, order: Order, i: nat, r: Frames, looks: nat)
    requires RunAt(g, s, hs, s', hs', order, i, r, looks)
    ensures |s'.pending.open.frames| == |s.pending.open.frames| + |All(Prefix(order, i))|
  {
    hide Grown, CutAfter, Unfiltered, Spent, LooksBefore, StopsAt;
    AllKept(s, s', Prefix(order, i));
  }

  /** The flag is seen at the i-th frame, or the limit is reached there. */
  lemma RunStops(g: Graph, s: State, hs: nat, s': State, hs': nat, order: Order, i: nat, r: Frames, looks: nat,
                 seen: bool)
    requires RunAt(g, s, hs, s', hs', order, i, r, looks) && i < |order.frames|
    requires seen || (order.maxFrames.Some? && |s'.pending.open.frames| >= order.maxFrames.value)
    ensures FramesCaptured(g, s, s', order, r.(truncated := true), seen, false)
    ensures Spent(g, s, hs, s', hs', |Cat(EncFrame, All(order))|)
    ensures looks < LooksFor(g, s, order, |s.pending.open.frames|)
    ensures !seen ==> LooksFor(g, s, order, |s.pending.open.frames|) == looks + 1
  {
    hide FramesCaptured, Unfiltered, Spent, LooksBefore, LooksFor, StopsAt;
    RunCounts(g, s, hs, s', hs', order, i, r, looks);
    StoppedShort(g, s, s', order, i, r, seen);
    LooksLeft(g, s, order, |s.pending.open.frames|, i);
    PrefixSpent(g, s, hs, s', hs', order, i);
  }

  /** All frames have been dealt with. */
  lemma RunEnds(g: Graph, s: State, hs: nat, s': State, hs': nat, order: Order, r: Frames, looks: nat)
    requires RunAt(g, s, hs, s', hs', order, |order.frames|, r, looks)
    ensures FramesCaptured(g, s, s', order, r, false, false)
    ensures Spent(g, s, hs, s', hs', |Cat(EncFrame, All(order))|)
    ensures LooksFor(g, s, order, |s.pending.open.frames|) == looks
  {
    hide FramesCaptured, Unfiltered, Spent, LooksBefore;
    assert Prefix(order, |order.frames|) == order;
  }

  lemma RunDrops(g: Graph, s: State, hs: nat, s': State, hs': nat, order: Order, i: nat, r: Frames, looks: nat)
    requires RunAt(g, s, hs, s', hs', order, i, r, looks) && i < |order.frames|
    requires Filtered(order.filters, order.frames[i].filePath)
    requires order.maxFrames.Some? ==> |s'.pending.open.frames| < order.maxFrames.value
    ensures RunAt(g, s, hs, s', hs', order, i + 1, r, looks + 1)
  {
    hide FramesCaptured, Filtered, Unfiltered, Spent, LooksFor, StopsAt, TablesAfter, StepsOf;
    RunCounts(g, s, hs, s', hs', order, i, r, looks);
    FrameDropped(g, s, s', order, i, r);
    LooksLeft(g, s, order, |s.pending.open.frames|, i);
    NoneKept(order, i);
  }

  lemma NoneKept(order: Order, i: nat)
    requires i < |order.frames| && Filtered(order.filters, order.frames[i].filePath)
    ensures All(Prefix(order, i + 1)) == All(Prefix(order, i))
  {
    hide Filtered;
    UnfilteredNext(order.frames, order.filters, i);
  }

  lemma RunAdds(g: Graph, s: State, hs: nat, s1: State, h1: nat, s2: State, h2: nat, order: Order, i: nat, r: Frames,
                looks: nat, hit: bool)
    requires RunAt(g, s, hs, s1, h1, order, i, r, looks) && i < |order.frames| && HasOpenStack(s2)
    requires !Filtered(order.filters, order.frames[i].filePath)
    requires FrameCaptured(g, s1, s2, order.frames[i], order.limit, true, hit)
    requires order.maxFrames.Some? ==> |s1.pending.open.frames| < order.maxFrames.value
    requires Spent(g, s1, h1, s2, h2, |EncFrame(order.frames[i])|)
    ensures RunAt(g, s, hs, s2, h2, order, i + 1, Frames(false, r.hit || hit),
                  looks + 1 + StepsOf(g, FrameWalk(s1, order.frames[i]), order.limit))
  {
    hide FramesCaptured, Filtered, Unfiltered, Spent, LooksFor, StopsAt, TablesAfter, StepsOf, FrameCaptured, EncFrame,
         Cat;
    RunCounts(g, s, hs, s1, h1, order, i, r, looks);
    FrameAdded(g, s, s1, s2, order, i, r, hit);
    LooksLeft(g, s, order, |s.pending.open.frames|, i);
    NextKept(order, i);
    CatOne(EncFrame, All(Prefix(order, i)), order.frames[i]);
    SpentFurther(g, s, hs, s1, h1, s2, h2, |Cat(EncFrame, All(Prefix(order, i)))|, |EncFrame(order.frames[i])|);
    RunTables(g, s, s1, order, i, r);
    WalkApart(g, TablesAfter(g, s, All(Prefix(order, i)), order.limit), s1, order.frames[i], order.limit);
  }

  lemma RunTables(g: Graph, s: State, s': State, order: Order, i: nat, r: Frames)
    requires i <= |order.frames| && FramesCaptured(g, s, s', Prefix(order, i), r, false, false) && !r.truncated
    ensures s' == TablesAfter(g, s, All(Prefix(order, i)), order.limit).(pending := s'.pending)
  {
    hide Sound, Closed, LocalsKnown, FramesHit, Unfiltered, CutAfter;
    AllKept(s, s', Prefix(order, i));
  }

  /** The walk of the i-th frame is cut short. */
  lemma RunCut(g: Graph, s: State, hs: nat, s1: State, h1: nat, s2: State, h2: nat, order: Order, i: nat, r: Frames,
               looks: nat, hit: bool)
    requires RunAt(g, s, hs, s1, h1, order, i, r, looks) && i < |order.frames|
    requires !Filtered(order.filters, order.frames[i].filePath)
    requires FrameCaptured(g, s1, s2, order.frames[i], order.limit, false, hit)
    requires order.maxFrames.Some? ==> |s1.pending.open.frames| < order.maxFrames.value
    requires Spent(g, s1, h1, s2, h2, |EncFrame(order.frames[i])|)
    ensures FramesCaptured(g, s, s2, order, Frames(true, r.hit || hit), true, true)
    ensures Spent(g, s, hs, s2, h2, |Cat(EncFrame, All(order))|)
    ensures looks + 1 + StepsOf(g, FrameWalk(s1, order.frames[i]), order.limit) <=
      LooksFor(g, s, order, |s.pending.open.frames|)
  {
    hide FramesCaptured, Filtered, Unfiltered, Spent, LooksFor, StopsAt, TablesAfter, StepsOf, FrameCaptured, EncFrame,
         Cat;
    RunCounts(g, s, hs, s1, h1, order, i, r, looks);
    FrameCut(g, s, s1, s2, order, i, r, hit);
    LooksLeft(g, s, order, |s.pending.open.frames|, i);
    NextKept(order, i);
    CatOne(EncFrame, All(Prefix(order, i)), order.frames[i]);
    SpentFurther(g, s, hs, s1, h1, s2, h2, |Cat(EncFrame, All(Prefix(order, i)))|, |EncFrame(order.frames[i])|);
    PrefixSpent(g, s, hs, s2, h2, order, i + 1);
    RunTables(g, s, s1, order, i, r);
    WalkApart(g, TablesAfter(g, s, All(Prefix(order, i)), order.limit), s1, order.frames[i], order.limit);
  }

  /** There was no room for the i-th frame or for what its locals lead to. */
  lemma RunFails(w: SnapshotWriter, g: Graph, s: State, hs: nat, s1: State, h1: nat, order: Order, i: nat, r: Frames,
                 looks: nat, since: nat, since0: nat)
    requires RunAt(g, s, hs, s1, h1, order, i, r, looks) && i < |order.frames| && since0 <= since
    requires !Filtered(order.filters, order.frames[i].filePath)
    requires GaveOut(w, g, [order.frames[i]], since) && NoRoom(w, since, Room(g, s1, h1, |EncFrame(order.frames[i])|))
    ensures GaveOut(w, g, All(order), since0) && NoRoom(w, since0, Room(g, s, hs, |Cat(EncFrame, All(order))|))
  {
    hide FramesCaptured, Filtered, Unfiltered, Spent, LooksBefore, StopsAt, EncFrame, Cat, Room, LacksRecord,
         SnapshotWriter.Lacks;
    NextKept(order, i);
    CatOne(EncFrame, All(Prefix(order, i)), order.frames[i]);
    RoomFromStart(g, s, hs, s1, h1, |Cat(EncFrame, All(Prefix(order, i)))|, |EncFrame(order.frames[i])|);
    PrefixBytes(All(Prefix(order, i + 1)), All(order));
    MoreRoom(g, s, hs, |Cat(EncFrame, All(Prefix(order, i + 1)))|, |Cat(EncFrame, All(order))|);
    FrameLacked(w, g, order.frames[i], since, since0);
    assert All(order)[|All(Prefix(order, i))|] in All(order);
  }

  lemma FrameLacked(w: SnapshotWriter, g: Graph, f: Frame, since: nat, since0: nat)
    requires GaveOut(w, g, [f], since) && since0 <= since
    ensures w.Lacks(WriteFrame(f), since0) || LacksRecord(w, g, LocalSet(f), since0)
  {
    hide LacksRecord, LocalSet, Needed;
    if LacksRecord(w, g, LocalSet(f), since) {
      LackedBefore(w, g, LocalSet(f), since, since0);
    }
  }

  lemma {:induction false} PrefixBytes(frames: seq<Frame>, all: seq<Frame>)
    requires frames <= all
    ensures |Cat(EncFrame, frames)| <= |Cat(EncFrame, all)|
    decreases |all|
  {
    hide EncFrame;
    if |frames| < |all| {
      var n := |all| - 1;
      PrefixBytes(frames, all[..n]);
      assert all[..n] + [all[n]] == all;
      CatOne(EncFrame, all[..n], all[n]);
    } else {
      assert frames == all;
    }
  }

  lemma PrefixSpent(g: Graph, s: State, hs: nat, s': State, hs': nat, order: Order, i: nat)
    requires i <= |order.frames| && Spent(g, s, hs, s', hs', |Cat(EncFrame, All(Prefix(order, i)))|)
    ensures Spent(g, s, hs, s', hs', |Cat(EncFrame, All(order))|)
  {
    hide EncFrame, Cat, Bill, HeapBill, Unfiltered;
    UnfilteredPrefix(order.frames, order.filters, i);
    PrefixBytes(All(Prefix(order, i)), All(order));
  }

  /** The frames of a stack, innermost first, until they end, the limit is reached, or the cancel flag is seen. */
  method WriteFrames(w: SnapshotWriter, g: Graph, order: Order, cancel: CancelFlag) returns (o: Outcome, result: Frames)
    requires w.Valid() && w.initialized && HasOpenStack(w.st) && ClosedGraph(g) && LocalsInGraph(g, order.frames)
    requires cancel.Valid() && !cancel.Seen() && !cancel.cut
    modifies w, w.mem, w.reader, cancel
    ensures Carried(w) && HasOpenStack(w.st) && w.st.committed == old(w.st).committed && cancel.Valid()
    ensures o.Done? ==> FramesCaptured(g, old(w.st), w.st, order, result, cancel.Seen(), cancel.cut)
    ensures o.Done? ==> cancel.Looked(LooksFor(g, old(w.st), order, |old(w.st).pending.open.frames|))
    ensures o.Done? ==> Spent(g, old(w.st), old(w.heapStart), w.st, w.heapStart, |Cat(EncFrame, All(order))|)
    ensures o.Failed? ==> o == Failed(OutOfSpace) && GaveOut(w, g, All(order), old(w.attempts))
    ensures o.Failed? ==> NoRoom(w, old(w.attempts), Room(g, old(w.st), old(w.heapStart), |Cat(EncFrame, All(order))|))
  {
    hide Inv, Growth, FrameCaptured, Filtered, ClosedGraph, LocalsInGraph, FramesCaptured, LacksRecord, RunAt, LooksFor,
         Spent, Room, GaveOut, All, StepsOf, FrameWalk, EncFrame, Cat, NoRoom, SnapshotWriter.Valid;
    ghost var s, hs, since := w.st, w.heapStart, w.attempts;
    o, result := Done, Frames(false, false);
    var frames := order.frames;
    RunStarts(g, s, hs, order);
    for i := 0 to |frames|
      invariant Carried(w) && HasOpenStack(w.st) && w.st.committed == s.committed && o.Done? && !result.truncated
      invariant cancel.Valid() && !cancel.Seen() && !cancel.cut && old(cancel.looks) <= cancel.looks
      invariant RunAt(g, s, hs, w.st, w.heapStart, order, i, result, cancel.looks - old(cancel.looks))
    {
      ghost var looks := cancel.looks - old(cancel.looks);
      FramesCounted(w);
      var cancelRequested := cancel.IsRequested();
      if cancelRequested || (order.maxFrames.Some? && w.currentFrameCount >= order.maxFrames.value) {
        RunStops(g, s, hs, w.st, w.heapStart, order, i, result, looks, cancelRequested);
        result := result.(truncated := true);
        return;
      }
      var filtered := ShouldFilterFrame(order.filters, frames[i].filePath);
      if filtered {
        RunDrops(g, s, hs, w.st, w.heapStart, order, i, result, looks);
        continue;
      }
      o, result := KeepFrame(w, g, order, i, result, cancel, s, hs, looks, since);
      if o.Failed? || result.truncated {
        return;
      }
    }
    RunEnds(g, s, hs, w.st, w.heapStart, order, result, cancel.looks - old(cancel.looks));
  }

  /** A frame that passes the filters: the run goes on behind it, or ends if its walk is cut short. */
  method KeepFrame(w: SnapshotWriter, g: Graph, order: Order, i: nat, r: Frames, cancel: CancelFlag,
                   ghost s: State, ghost hs: nat, ghost looks: nat, ghost since: nat)
    returns (o: Outcome, result: Frames)
    requires w.Valid() && w.initialized && ClosedGraph(g) && LocalsInGraph(g, order.frames) && HasOpenStack(w.st)
    requires HasOpenStack(s)
    requires RunAt(g, s, hs, w.st, w.heapStart, order, i, r, looks) && i < |order.frames| && !r.truncated
    requires !Filtered(order.filters, order.frames[i].filePath)
    requires order.maxFrames.Some? ==> |w.st.pending.open.frames| < order.maxFrames.value
    requires cancel.Valid() && !cancel.Seen() && !cancel.cut && since <= w.attempts
    modifies w, w.mem, w.reader, cancel
    ensures Carried(w) && HasOpenStack(w.st) && w.st.committed == old(w.st).committed && cancel.Valid()
    ensures o.Done? ==> result.truncated == cancel.Seen() == cancel.cut
    ensures o.Done? ==> cancel.Looked(StepsOf(g, FrameWalk(old(w.st), order.frames[i]), order.limit))
    ensures o.Done? && !result.truncated ==>
      RunAt(g, s, hs, w.st, w.heapStart, order, i + 1, result,
            looks + 1 + StepsOf(g, FrameWalk(old(w.st), order.frames[i]), order.limit))
    ensures o.Done? && result.truncated ==>
      && FramesCaptured(g, s, w.st, order, result, true, true)
      && Spent(g, s, hs, w.st, w.heapStart, |Cat(EncFrame, All(order))|)
      && looks + 1 + StepsOf(g, FrameWalk(old(w.st), order.frames[i]), order.limit) <=
         LooksFor(g, s, order, |s.pending.open.frames|)
    ensures o.Failed? ==> o == Failed(OutOfSpace) && GaveOut(w, g, All(order), since)
    ensures o.Failed? ==> NoRoom(w, since, Room(g, s, hs, |Cat(EncFrame, All(order))|))
  {
    hide Inv, Growth, FrameCaptured, Filtered, ClosedGraph, LocalsInGraph, FramesCaptured, LacksRecord, RunAt, LooksFor,
         Spent, Room, GaveOut, All, StepsOf, FrameWalk, EncFrame, Cat, NoRoom, SnapshotWriter.Valid;
    ghost var s1, h1, since1 := w.st, w.heapStart, w.attempts;
    OneFrameInGraph(g, order.frames, i);
    var completed, hit;
    o, completed, hit := CaptureFrame(w, g, order.frames[i], order.limit, cancel);
    result := Frames(!completed, r.hit || hit);
    if o.Failed? {
      RunFails(w, g, s, hs, s1, h1, order, i, r, looks, since1, since);
    } else if completed {
      RunAdds(g, s, hs, s1, h1, w.st, w.heapStart, order, i, r, looks, hit);
    } else {
      RunCut(g, s, hs, s1, h1, w.st, w.heapStart, order, i, r, looks, hit);
    }
  }

  lemma FramesCounted(w: SnapshotWriter)
    requires w.Valid() && w.initialized && HasOpenStack(w.st)
    ensures w.currentFrameCount == |w.st.pending.open.frames|
  {
    hide Inv, Growth;
    FrameCount(w.mem[..], w.C(), w.snaps, w.st);
  }

  lemma OneFrameInGraph(g: Graph, frames: seq<Frame>, i: nat)
    requires LocalsInGraph(g, frames) && i < |frames|
    ensures LocalsInGraph(g, [frames[i]])
  {
    forall j | 0 <= j < |frames[i].locals| ensures frames[i].locals[j].pythonId in g {
    }
  }

  // ------------------------------------------------------------------
  // A whole snapshot
  // ------------------------------------------------------------------

  /** The current stack, innermost frame first, or a traceback, outermost first. */
  datatype Source = CurrentStack(frames: seq<Frame>, skip: nat) | Traceback(entries: seq<Frame>)

  function InnermostFirst(frames: seq<Frame>): (r: seq<Frame>)
    ensures |r| == |frames| && forall i :: 0 <= i < |r| ==> r[i] == frames[|frames| - 1 - i]
  {
    seq(|frames|, i requires 0 <= i < |frames| => frames[|frames| - 1 - i])
  }

  /** The frames a capture starts from, innermost first. */
  function Wanted(source: Source): seq<Frame> {
    match source
    case CurrentStack(frames, skip) => if skip <= |frames| then frames[skip..] else []
    case Traceback(entries) => InnermostFirst(entries)
  }

  /** The run over frames that a capture asks for. */
  function OrderOf(source: Source, filters: seq<Str>, maxFrames: Option<nat>, limit: Option<nat>): Order {
    Order(Wanted(source), filters, maxFrames, limit)
  }

  /** Walk up from the current frame. Without one there is nothing to write, and that counts as truncated. */
  method WriteFramesFromFrame(w: SnapshotWriter, g: Graph, frames: seq<Frame>, skip: nat, filters: seq<Str>,
                              maxFrames: Option<nat>, limit: Option<nat>, cancel: CancelFlag)
    returns (o: Outcome, result: Frames)
    requires w.Valid() && w.initialized && HasOpenStack(w.st) && ClosedGraph(g) && LocalsInGraph(g, frames)
    requires cancel.Valid() && !cancel.Seen() && !cancel.cut
    modifies w, w.mem, w.reader, cancel
    ensures Carried(w) && HasOpenStack(w.st) && w.st.committed == old(w.st).committed && cancel.Valid()
    ensures frames == [] ==>
      o.Done? && w.st == old(w.st) && result == Frames(true, false) && !cancel.Seen() && !cancel.cut
    ensures FramesWritten(w, g, OrderOf(CurrentStack(frames, skip), filters, maxFrames, limit), cancel, o, result,
                          frames == [])
  {
    hide Inv, Growth, ClosedGraph, FramesCaptured, Unfiltered, GaveOut, LooksFor, Spent, Room, NoRoom;
    if frames == [] {
      NothingToWrite(g, w.st, w.heapStart, filters, maxFrames, limit);
      return Done, Frames(true, false);
    }
    var frame := 0;
    while frame < skip && frame < |frames|
      invariant frame <= skip && frame <= |frames|
    {
      frame := frame + 1;
    }
    assert frames[frame..] == Wanted(CurrentStack(frames, skip));
    assert forall i :: 0 <= i < |frames[frame..]| ==> frames[frame..][i] == frames[frame + i];
    o, result := WriteFrames(w, g, Order(frames[frame..], filters, maxFrames, limit), cancel);
  }

  /** What a run over frames promises its caller; there may have been no frame to start from. */
  twostate predicate FramesWritten(w: SnapshotWriter, g: Graph, order: Order, cancel: CancelFlag, o: Outcome,
                                   result: Frames, none: bool)
    requires HasOpenStack(old(w.st))
    reads w, w.mem, cancel
  {
    && (o.Done? && !none ==> FramesCaptured(g, old(w.st), w.st, order, result, cancel.Seen(), cancel.cut))
    && (o.Done? ==> cancel.Looked(LooksFor(g, old(w.st), order, |old(w.st).pending.open.frames|)))
    && (o.Done? ==> Spent(g, old(w.st), old(w.heapStart), w.st, w.heapStart, |Cat(EncFrame, All(order))|))
    && (o.Failed? ==> o == Failed(OutOfSpace) && GaveOut(w, g, All(order), old(w.attempts)))
    && (o.Failed? ==> NoRoom(w, old(w.attempts), Room(g, old(w.st), old(w.heapStart), |Cat(EncFrame, All(order))|)))
  }

  lemma NothingToWrite(g: Graph, s: State, heapStart: nat, filters: seq<Str>, maxFrames: Option<nat>,
                       limit: Option<nat>)
    requires HasOpenStack(s)
    ensures
      var order := Order([], filters, maxFrames, limit);
      && LooksFor(g, s, order, |s.pending.open.frames|) == 0
      && Spent(g, s, heapStart, s, heapStart, |Cat(EncFrame, All(order))|)
  {
    hide Bill, HeapBill;
    NothingTakes();
  }

  /** Collect the entries of a traceback, then take them innermost first. */
  method WriteTracebackFrames(w: SnapshotWriter, g: Graph, entries: seq<Frame>, filters: seq<Str>,
                              maxFrames: Option<nat>, limit: Option<nat>, cancel: CancelFlag)
    returns (o: Outcome, result: Frames)
    requires w.Valid() && w.initialized && HasOpenStack(w.st) && ClosedGraph(g) && LocalsInGraph(g, entries)
    requires cancel.Valid() && !cancel.Seen() && !cancel.cut
    modifies w, w.mem, w.reader, cancel
    ensures Carried(w) && HasOpenStack(w.st) && w.st.committed == old(w.st).committed && cancel.Valid()
    ensures FramesWritten(w, g, OrderOf(Traceback(entries), filters, maxFrames, limit), cancel, o, result, false)
  {
    hide Inv, Growth, ClosedGraph, FramesCaptured, Unfiltered, GaveOut, LooksFor, Spent, Room, NoRoom;
    var collected: seq<Frame> := [];
    for i := 0 to |entries|
      invariant collected == entries[..i]
    {
      collected := collected + [entries[i]];
    }
    assert collected == entries;
    o, result := WriteFrames(w, g, Order(InnermostFirst(collected), filters, maxFrames, limit), cancel);
  }

  /**
   * The one stacktrace of a snapshot. Its frames are the innermost of those wanted, all that the limit
   * admits unless the cancel flag was seen, and it says exactly when there might be more.
   */
  ghost predicate StackOf(d: SnapData, info: StackInfo, order: Order, seen: bool) {
    && |d.stacks| == 1 && d.stacks[0].info == SelfLinked(info)
    && 0 < |d.stacks[0].frames| <= Quota(order, 0) <= |All(order)|
    && d.stacks[0].frames == All(order)[..|d.stacks[0].frames|]
    && (!seen ==> |d.stacks[0].frames| == Quota(order, 0))
    && d.truncated == d.stacks[0].truncated
    && (d.truncated <==> seen || Overflows(order, 0))
  }

  /**
   * What `takeSnapshot` leaves in the log. Nothing is written only if there was nothing to write, or a
   * limit of zero, or a cancel. What is written can be followed: every local of every frame is in the
   * object map, and unless a walk was cut short, heap and object map are what the walks of these frames
   * make of them, nothing dangles, and the depth flag says whether one of the walks came upon the limit.
   */
  ghost predicate SnapshotTaken(g: Graph, s: State, s': State, timestamp: U64, info: StackInfo, order: Order,
                                written: bool, seen: bool, cut: bool)
  {
    && s'.pending.Idle? && s'.objects == map[] && (cut ==> seen) && (Sound(g, s) ==> Sound(g, s'))
    && (!written ==> s'.committed == s.committed && (seen || Quota(order, 0) == 0))
    && (written ==>
          && |s'.committed| == |s.committed| + 1 && s.committed <= s'.committed
          && var d := s'.committed[|s.committed|];
             && d.timestamp == timestamp && StackOf(d, info, order, seen)
             && ObjectsTaken(g, s, s', d, order, cut))
  }

  ghost predicate ObjectsTaken(g: Graph, s: State, s': State, d: SnapData, order: Order, cut: bool) {
    |d.stacks| == 1 &&
    var st, limit := d.stacks[0], order.limit;
    && (Sound(g, s) ==> LocalsKnown(g, d.objectMap, st.frames))
    && (Sound(g, s) && s.objects == map[] && !cut ==> Whole(g, s'.(objects := d.objectMap)))
    && (FramesHit(g, s, st.frames, limit) ==> st.depthTruncated)
    && (!cut ==>
          && st.depthTruncated == FramesHit(g, s, st.frames, limit)
          && var after := TablesAfter(g, s, st.frames, limit);
             d.objectMap == after.objects && s'.heap == after.heap && s'.cache == after.cache)
    && (cut ==>
        CutAfter(g, s, s'.(committed := s.committed, objects := d.objectMap), st.frames, order, st.depthTruncated))
  }

  /**
   * Nobody cancels and there is no limit on frames: then all frames are there, nothing dangles, and no flag
   * says otherwise.
   */
  lemma UncancelledIsComplete(g: Graph, s: State, s': State, timestamp: U64, info: StackInfo, order: Order,
                              written: bool, cut: bool)
    requires SnapshotTaken(g, s, s', timestamp, info, order, written, false, cut) && order.maxFrames.None?
    ensures written <==> All(order) != []
    ensures written ==>
      var d := s'.committed[|s.committed|];
      && !d.truncated && |d.stacks| == 1 && !d.stacks[0].truncated && d.stacks[0].frames == All(order)
      && (Sound(g, s) && s.objects == map[] ==> Whole(g, s'.(objects := d.objectMap)))
  {
    hide Sound, Closed, LocalsKnown, FramesHit, TablesAfter;
    assert All(order)[..|All(order)|] == All(order);
  }

  /** What a stack capture starts from. */
  ghost function Begun(s: State, timestamp: U64, info: StackInfo): State {
    s.(pending := Pending(timestamp, [], OpenStack(SelfLinked(info), [])))
  }

  lemma SnapshotBegun(s: State, timestamp: U64, s': State, o: Outcome)
    requires Stepped(s, Op.BeginSnapshot(timestamp), s', o)
    ensures o.Failed? ==> s' == s && (o == Failed(OutOfSpace) || (o == Failed(SnapshotOpen) && s.pending.Pending?))
    ensures o.Done? ==> s' == s.(pending := Pending(timestamp, [], NoStack)) && s.pending.Idle?
  {
  }

  lemma StackBegun(s: State, info: StackInfo, s': State, o: Outcome)
    requires s.pending.Pending? && s.pending.open.NoStack? && Stepped(s, Op.BeginStacktrace(info), s', o)
    ensures o.Failed? ==> s' == s && o == Failed(OutOfSpace)
    ensures o.Done? ==> s' == s.(pending := s.pending.(open := OpenStack(SelfLinked(info), [])))
  {
  }

  /** The log after the calls that finish a snapshot of one stack. */
  ghost function Finished(s: State, result: Frames): State
    requires HasOpenStack(s)
  {
    if s.pending.open.frames == [] then s.(pending := Idle, objects := map[])
    else
      var stack := Stack(s.pending.open.info, result.truncated, result.hit, s.pending.open.frames);
      s.(committed := s.committed + [SnapData(s.pending.timestamp, [stack], s.objects, result.truncated)],
         pending := Idle, objects := map[])
  }

  /** Close the stacktrace or drop it if it is empty, then close the snapshot or drop it. */
  method FinishSnapshot(w: SnapshotWriter, g: Graph, result: Frames) returns (o: Outcome, written: bool)
    requires w.Valid() && w.initialized && HasOpenStack(w.st) && w.st.pending.stacks == []
    modifies w, w.mem, w.reader
    ensures w.Valid() && w.initialized && w.reader == old(w.reader) && (w.mem == old(w.mem) || fresh(w.mem))
    ensures o.Done? ==> w.st == Finished(old(w.st), result) && written == (old(w.st).pending.open.frames != [])
    ensures o.Failed? ==> w.st.committed == old(w.st).committed && !written && o == Failed(OutOfSpace)
    ensures o.Failed? ==>
      w.Lacks(Op.EndSnapshot(false), old(w.attempts)) || w.Lacks(Op.EndSnapshot(true), old(w.attempts))
    ensures o.Failed? ==> NoRoom(w, old(w.attempts), Room(g, old(w.st), old(w.heapStart), 0))
    ensures old(w.attempts) <= w.attempts
  {
    hide Inv, Growth, Stepped, Bill, HeapBill, Room, Needed, Finished;
    ghost var s, since := w.st, w.attempts;
    written := false;
    FrameCount(w.mem[..], w.C(), w.snaps, w.st);
    if w.currentFrameCount == 0 {
      w.DiscardCurrentStacktrace();
      StackDropped(s, w.st);
      DropPending(w);
      o := Done;
      DroppedSo(s, w.st, result);
    } else {
      o := w.EndStacktrace(result.truncated, result.hit);
      StackEnded(s, result, w.st, o);
      EndedBill(g, s, result.truncated, result.hit, w.st);
      ghost var s1 := w.st;
      o, written := CommitPending(w, g, result.truncated);
      EndedSo(s, s1, w.st, result);
    }
  }

  /** Without a stacktrace the snapshot is dropped. */
  method DropPending(w: SnapshotWriter)
    requires w.Valid() && w.initialized && w.st.pending.Pending? && w.st.pending.stacks == []
    requires w.st.pending.open.NoStack?
    modifies w
    ensures w.Valid() && w.initialized && w.reader == old(w.reader) && w.mem == old(w.mem)
    ensures old(w.attempts) <= w.attempts
    ensures w.st == old(w.st).(pending := Idle, objects := map[])
  {
    hide Inv, Growth, Stepped;
    ghost var s := w.st;
    w.DiscardCurrentSnapshot();
    SnapshotDropped(s, w.st);
  }

  /** With one, it is ended. */
  method CommitPending(w: SnapshotWriter, g: Graph, truncated: bool) returns (o: Outcome, written: bool)
    requires w.Valid() && w.initialized && w.st.pending.Pending? && w.st.pending.open.NoStack?
    modifies w, w.mem, w.reader
    ensures w.Valid() && w.initialized && w.reader == old(w.reader) && (w.mem == old(w.mem) || fresh(w.mem))
    ensures old(w.attempts) <= w.attempts && written == o.Done?
    ensures o.Failed? ==>
      w.st == old(w.st) && o == Failed(OutOfSpace) && w.Lacks(Op.EndSnapshot(truncated), old(w.attempts))
    ensures o.Failed? ==> NoRoom(w, old(w.attempts), Room(g, old(w.st), old(w.heapStart), 0))
    ensures o.Done? ==>
      var s := old(w.st);
      w.st == s.(committed := s.committed + [SnapData(s.pending.timestamp, s.pending.stacks, s.objects, truncated)],
                 pending := Idle, objects := map[])
  {
    hide Inv, Growth, Stepped, Bill, HeapBill, Room, Needed;
    ghost var s, img, c, snaps := w.st, w.mem[..], w.C(), w.snaps;
    o := w.EndSnapshot(truncated);
    written := o.Done?;
    SnapshotEnded(s, truncated, w.st, o);
    if o.Failed? {
      MapBill(g, s, truncated);
      RecordsFit(g, img, c, snaps, s, Op.EndSnapshot(truncated), 0);
    }
  }

  lemma MapBill(g: Graph, s: State, truncated: bool)
    requires s.pending.Pending? && s.pending.open.NoStack?
    ensures RecordsEnd(s) + RecordBytes(s, Op.EndSnapshot(truncated)) <= Bill(g, s)
  {
    hide RecordsEnd;
  }

  /** Closing a stacktrace costs nothing. */
  lemma EndedBill(g: Graph, s: State, truncated: bool, hit: bool, s': State)
    requires HasOpenStack(s) && Stepped(s, Op.EndStacktrace(truncated, hit), s', Done)
    ensures Bill(g, s') <= Bill(g, s) && HeapBill(g, s') == HeapBill(g, s)
    ensures forall heapStart :: Room(g, s', heapStart, 0) <= Room(g, s, heapStart, 0)
  {
    hide RecordsEnd, HeapBytes, Owed;
    StepCost(s, Op.EndStacktrace(truncated, hit), false);
  }

  lemma DroppedSo(s: State, s': State, result: Frames)
    requires HasOpenStack(s) && s.pending.open.frames == [] && s' == s.(pending := Idle, objects := map[])
    ensures s' == Finished(s, result)
  {
  }

  lemma EndedSo(s: State, s1: State, s': State, result: Frames)
    requires HasOpenStack(s) && s.pending.open.frames != []
    requires
      var stack := Stack(s.pending.open.info, result.truncated, result.hit, s.pending.open.frames);
      s1 == s.(pending := s.pending.(stacks := [stack], open := NoStack))
    ensures
      var d := SnapData(s1.pending.timestamp, s1.pending.stacks, s1.objects, result.truncated);
      s' == s1.(committed := s1.committed + [d], pending := Idle, objects := map[]) ==> s' == Finished(s, result)
  {
  }

  lemma StackDropped(s: State, s': State)
    requires HasOpenStack(s) && Stepped(s, DiscardStacktrace, s', Done)
    ensures s' == s.(pending := s.pending.(open := NoStack))
  {
  }

  lemma StackEnded(s: State, result: Frames, s': State, o: Outcome)
    requires HasOpenStack(s) && Stepped(s, Op.EndStacktrace(result.truncated, result.hit), s', o)
    requires s.pending.stacks == []
    ensures o.Done?
    ensures s' ==
      s.(pending :=
         s.pending.(stacks := [Stack(s.pending.open.info, result.truncated, result.hit, s.pending.open.frames)],
                    open := NoStack))
  {
    var stack := Stack(s.pending.open.info, result.truncated, result.hit, s.pending.open.frames);
    assert s.pending.stacks + [stack] == [stack];
  }

  lemma SnapshotDropped(s: State, s': State)
    requires s.pending.Pending? && Stepped(s, DiscardSnapshot, s', Done)
    ensures s' == s.(pending := Idle, objects := map[])
  {
  }

  lemma SnapshotEnded(s: State, truncated: bool, s': State, o: Outcome)
    requires s.pending.Pending? && s.pending.open.NoStack? && Stepped(s, Op.EndSnapshot(truncated), s', o)
    ensures o.Failed? ==> s' == s && o == Failed(OutOfSpace)
    ensures o.Done? ==>
      s' == s.(committed := s.committed + [SnapData(s.pending.timestamp, s.pending.stacks, s.objects, truncated)],
               pending := Idle, objects := map[])
  {
  }

  /** Dropping the entries of the object map keeps the tables sound. */
  lemma Forgotten(g: Graph, s: State, s': State)
    requires s' == s.(committed := s'.committed, pending := s'.pending, objects := map[])
    ensures Sound(g, s) ==> Sound(g, s')
  {
    hide Unreadable, RecChildren, FullRec, ObjectHash, SameButRepr, EncRec;
  }

  lemma TakenSo(g: Graph, s: State, timestamp: U64, info: StackInfo, s2: State, s': State, order: Order, result: Frames,
                written: bool, seen: bool, cut: bool)
    requires s.pending.Idle?
    requires FramesCaptured(g, Begun(s, timestamp, info), s2, order, result, seen, cut)
    requires HasOpenStack(s2) && s' == Finished(s2, result) && written == (s2.pending.open.frames != [])
    ensures SnapshotTaken(g, s, s', timestamp, info, order, written, seen, cut)
  {
    hide Sound, Closed, LocalsKnown, StackOf, FramesCaptured, Finished, ObjectsTaken;
    TakenStack(g, s, timestamp, info, s2, s', order, result, seen, cut);
    TakenTables(g, s, timestamp, info, s2, s', order, result, seen, cut);
  }

  lemma TakenTables(g: Graph, s: State, timestamp: U64, info: StackInfo, s2: State, s': State, order: Order,
                    result: Frames, seen: bool, cut: bool)
    requires FramesCaptured(g, Begun(s, timestamp, info), s2, order, result, seen, cut)
    requires HasOpenStack(s2) && s' == Finished(s2, result)
    ensures s'.pending.Idle? && s'.objects == map[] && (cut ==> seen)
    ensures Sound(g, s) ==> Sound(g, s')
    ensures s2.pending.open.frames != [] ==> ObjectsTaken(g, s, s', s'.committed[|s'.committed| - 1], order, cut)
  {
    hide Sound, Closed, LocalsKnown, FramesKept, FramesHit, TablesAfter, EndOf, ObjectsTaken, Grown, Whole;
    Forgotten(g, s2, s');
    BegunSame(g, s, Begun(s, timestamp, info));
    GrownSound(g, Begun(s, timestamp, info), s2, KeptFrames(Begun(s, timestamp, info), s2), order.limit, result.hit,
               cut);
    if s2.pending.open.frames != [] {
      assert KeptFrames(Begun(s, timestamp, info), s2) == s2.pending.open.frames;
      TakenObjects(g, s, Begun(s, timestamp, info), s2, s', result, order, cut);
    }
  }

  lemma GrownSound(g: Graph, s: State, s': State, frames: seq<Frame>, limit: Option<nat>, hit: bool, cut: bool)
    requires Grown(g, s, s', frames, limit, hit, cut)
    ensures Sound(g, s) ==> Sound(g, s')
  {
    hide Sound, Closed, LocalsKnown, FramesHit, TablesAfter;
  }

  lemma BegunSame(g: Graph, s: State, s1: State)
    requires s1 == s.(pending := s1.pending)
    ensures Sound(g, s1) <==> Sound(g, s)
    ensures Sound(g, s) && s.objects == map[] ==> Whole(g, s1)
  {
    hide Sound;
    SameTables(g, s, s1, []);
    if s.objects == map[] {
      EmptyClosed(g, s1);
    }
  }

  lemma TakenObjects(g: Graph, s: State, s1: State, s2: State, s': State, r: Frames, order: Order, cut: bool)
    requires s1 == s.(pending := s1.pending) && HasOpenStack(s2) && s2.pending.open.frames != []
    requires s' == Finished(s2, r)
    requires Grown(g, s1, s2, s2.pending.open.frames, order.limit, r.hit, cut)
    requires cut ==> CutAfter(g, s1, s2, s2.pending.open.frames, order, r.hit)
    ensures ObjectsTaken(g, s, s', s'.committed[|s'.committed| - 1], order, cut)
  {
    hide Sound, Closed, LocalsKnown, FramesHit, TablesAfter, EndOf, CutAfter;
    var d, frames := s'.committed[|s'.committed| - 1], s2.pending.open.frames;
    BegunSame(g, s, s1);
    SameTables(g, s2, s'.(objects := s2.objects), []);
    FromBegun(g, s, s1, frames, order.limit);
    assert d.objectMap == s2.objects && d.stacks[0].frames == frames;
    if cut {
      CutFromBegun(g, s, s1, s2, s'.(committed := s.committed, objects := s2.objects), frames, order, r.hit);
    }
  }

  lemma CutFromBegun(g: Graph, s: State, s1: State, s2: State, t: State, kept: seq<Frame>, order: Order, hit: bool)
    requires s1 == s.(pending := s1.pending) && CutAfter(g, s1, s2, kept, order, hit) && s2.committed == s1.committed
    requires t == s2.(pending := t.pending)
    ensures CutAfter(g, s, t, kept, order, hit)
  {
    hide Iterate, StepsOf, FramesHit, TablesAfter, Unfiltered;
    FromBegun(g, s, s1, kept, order.limit);
    var before, before1, f :=
      TablesAfter(g, s, kept, order.limit), TablesAfter(g, s1, kept, order.limit), All(order)[|kept|];
    var n, newHit :| hit == (FramesHit(g, s1, kept, order.limit) || newHit)
      && PartlyWalked(g, before1, s2, f, order.limit, n, newHit);
    PartlyWalkedApart(g, before, before1, s2, f, order.limit, n, newHit);
    assert PartlyWalked(g, before, t, f, order.limit, n, newHit);
  }

  lemma {:induction false} FromBegun(g: Graph, s: State, s1: State, frames: seq<Frame>, limit: Option<nat>)
    requires s1 == s.(pending := s1.pending)
    ensures TablesAfter(g, s1, frames, limit) == TablesAfter(g, s, frames, limit).(pending := s1.pending)
    ensures FramesHit(g, s1, frames, limit) == FramesHit(g, s, frames, limit)
  {
    hide EndOf;
    if frames != [] {
      var n := |frames| - 1;
      FromBegun(g, s, s1, frames[..n], limit);
      OneFrameMore(g, TablesAfter(g, s, frames[..n], limit), TablesAfter(g, s1, frames[..n], limit), frames[n], limit);
    }
  }

  lemma TakenStack(g: Graph, s: State, timestamp: U64, info: StackInfo, s2: State, s': State, order: Order,
                   result: Frames, seen: bool, cut: bool)
    requires s.pending.Idle?
    requires FramesCaptured(g, Begun(s, timestamp, info), s2, order, result, seen, cut)
    requires HasOpenStack(s2) && s' == Finished(s2, result)
    ensures s2.pending.open.frames == [] ==> s'.committed == s.committed && (seen || Quota(order, 0) == 0)
    ensures s2.pending.open.frames != [] ==>
      && |s'.committed| == |s.committed| + 1 && s.committed <= s'.committed
      && s'.committed[|s.committed|].timestamp == timestamp && StackOf(s'.committed[|s.committed|], info, order, seen)
  {
    hide Sound, Closed, LocalsKnown, FramesHit, TablesAfter, Quota, Overflows, Unfiltered;
    var frames := s2.pending.open.frames;
    assert [] + All(order)[..|frames|] == All(order)[..|frames|];
  }

  lemma EmptyClosed(g: Graph, s: State)
    requires s.objects == map[]
    ensures Closed(g, s, [])
  {
  }

  lemma NothingTaken(g: Graph, s: State, timestamp: U64, info: StackInfo, s1: State, s': State, order: Order)
    requires s.pending.Idle? && s1 == Begun(s, timestamp, info) && order.frames == []
    requires s' == Finished(s1, Frames(true, false))
    ensures SnapshotTaken(g, s, s', timestamp, info, order, false, false, false)
  {
    hide Sound, Closed, LocalsKnown;
    Forgotten(g, s, s');
  }

  /** Why a capture of one stack was given up. */
  ghost predicate Starved(w: SnapshotWriter, g: Graph, timestamp: U64, info: StackInfo, order: Order, since: nat)
    reads w, w.mem
  {
    || w.Lacks(Op.BeginSnapshot(timestamp), since) || w.Lacks(Op.BeginStacktrace(info), since)
    || GaveOut(w, g, All(order), since)
    || w.Lacks(Op.EndSnapshot(false), since) || w.Lacks(Op.EndSnapshot(true), since)
  }

  /** The records of a capture of one stack, its object map aside. */
  function CaptureBytes(info: StackInfo, order: Order): nat {
    SNAPSHOT_HEADER_SIZE + STACKTRACE_HEADER_SIZE + |info.threadName| + |Cat(EncFrame, All(order))|
  }

  /**
   * How a capture of one stack fails: a snapshot is open already, or there is no room, which can only be if
   * an extension has been refused meanwhile or if its records and the graph do not fit below the limit.
   */
  twostate predicate GivenUp(w: SnapshotWriter, g: Graph, timestamp: U64, info: StackInfo, order: Order, o: Outcome)
    reads w, w.mem
  {
    && w.st.committed == old(w.st).committed
    && (|| (o == Failed(SnapshotOpen) && old(w.st).pending.Pending? && w.st == old(w.st))
        || (o == Failed(OutOfSpace) && Starved(w, g, timestamp, info, order, old(w.attempts))))
    && (o == Failed(OutOfSpace) ==>
        NoRoom(w, old(w.attempts), Room(g, old(w.st), old(w.heapStart), CaptureBytes(info, order))))
  }

  /** Begin a snapshot and its stacktrace. */
  method BeginCapture(w: SnapshotWriter, g: Graph, timestamp: U64, info: StackInfo) returns (o: Outcome)
    requires w.Valid() && w.initialized
    modifies w, w.mem, w.reader
    ensures w.Valid() && w.initialized && w.reader == old(w.reader) && (w.mem == old(w.mem) || fresh(w.mem))
    ensures old(w.attempts) <= w.attempts && w.st.committed == old(w.st).committed
    ensures o.Done? ==> old(w.st).pending.Idle? && w.st == Begun(old(w.st), timestamp, info)
    ensures o.Done? ==>
      Spent(g, old(w.st), old(w.heapStart), w.st, w.heapStart,
            SNAPSHOT_HEADER_SIZE + (STACKTRACE_HEADER_SIZE + |info.threadName|))
    ensures o.Failed? ==>
      || (o == Failed(SnapshotOpen) && old(w.st).pending.Pending? && w.st == old(w.st))
      || (o == Failed(OutOfSpace)
          && (w.Lacks(Op.BeginSnapshot(timestamp), old(w.attempts))
              || w.Lacks(Op.BeginStacktrace(info), old(w.attempts))))
    ensures o == Failed(OutOfSpace) ==>
      NoRoom(w, old(w.attempts),
             Room(g, old(w.st), old(w.heapStart), SNAPSHOT_HEADER_SIZE + (STACKTRACE_HEADER_SIZE + |info.threadName|)))
  {
    hide Inv, Growth, Stepped, Spent, Room, SnapshotWriter.Lacks;
    ghost var s, hs, since := w.st, w.heapStart, w.attempts;
    o := OpenPending(w, g, timestamp);
    MoreRoom(g, s, hs, SNAPSHOT_HEADER_SIZE, SNAPSHOT_HEADER_SIZE + (STACKTRACE_HEADER_SIZE + |info.threadName|));
    if o.Failed? {
      return;
    }
    ghost var s1, h1, since1 := w.st, w.heapStart, w.attempts;
    o := OpenFirstStack(w, g, info);
    RoomFromStart(g, s, hs, s1, h1, SNAPSHOT_HEADER_SIZE, STACKTRACE_HEADER_SIZE + |info.threadName|);
    if o.Failed? {
      LacksBefore(w, Op.BeginStacktrace(info), since1, since);
    } else {
      SpentFurther(g, s, hs, s1, h1, w.st, w.heapStart, SNAPSHOT_HEADER_SIZE,
                   STACKTRACE_HEADER_SIZE + |info.threadName|);
    }
  }

  method OpenPending(w: SnapshotWriter, g: Graph, timestamp: U64) returns (o: Outcome)
    requires w.Valid() && w.initialized
    modifies w, w.mem, w.reader
    ensures w.Valid() && w.initialized && w.reader == old(w.reader) && (w.mem == old(w.mem) || fresh(w.mem))
    ensures old(w.attempts) <= w.attempts
    ensures o.Done? ==> old(w.st).pending.Idle? && w.st == old(w.st).(pending := Pending(timestamp, [], NoStack))
    ensures o.Done? ==> Spent(g, old(w.st), old(w.heapStart), w.st, w.heapStart, SNAPSHOT_HEADER_SIZE)
    ensures o.Failed? ==> w.st == old(w.st)
    ensures o.Failed? ==>
      || (o == Failed(SnapshotOpen) && old(w.st).pending.Pending?)
      || (o == Failed(OutOfSpace) && w.Lacks(Op.BeginSnapshot(timestamp), old(w.attempts)))
    ensures o == Failed(OutOfSpace) ==>
      NoRoom(w, old(w.attempts), Room(g, old(w.st), old(w.heapStart), SNAPSHOT_HEADER_SIZE))
  {
    hide Inv, Growth, Stepped, Bill, HeapBill, Room, Needed;
    ghost var s, img, c, snaps := w.st, w.mem[..], w.C(), w.snaps;
    o := w.BeginSnapshot(timestamp);
    SnapshotBegun(s, timestamp, w.st, o);
    if o.Done? {
      PendingBill(g, s, timestamp);
      CallSpends(g, img, c, snaps, s, Op.BeginSnapshot(timestamp), w.st, w.heapStart, SNAPSHOT_HEADER_SIZE);
    } else if s.pending.Idle? {
      PendingBill(g, s, timestamp);
      RecordsFit(g, img, c, snaps, s, Op.BeginSnapshot(timestamp), SNAPSHOT_HEADER_SIZE);
    }
  }

  lemma PendingBill(g: Graph, s: State, timestamp: U64)
    requires s.pending.Idle?
    ensures
      var s' := s.(pending := Pending(timestamp, [], NoStack));
      Bill(g, s') <= Bill(g, s) + SNAPSHOT_HEADER_SIZE && HeapBill(g, s') == HeapBill(g, s)
    ensures RecordsEnd(s) + RecordBytes(s, Op.BeginSnapshot(timestamp)) <= Bill(g, s) + SNAPSHOT_HEADER_SIZE
  {
    hide HeapBytes, LogSize;
    NothingTakes();
  }

  method OpenFirstStack(w: SnapshotWriter, g: Graph, info: StackInfo) returns (o: Outcome)
    requires w.Valid() && w.initialized && w.st.pending.Pending? && w.st.pending.open.NoStack?
    modifies w, w.mem, w.reader
    ensures w.Valid() && w.initialized && w.reader == old(w.reader) && (w.mem == old(w.mem) || fresh(w.mem))
    ensures old(w.attempts) <= w.attempts
    ensures o.Done? ==> w.st == old(w.st).(pending := old(w.st).pending.(open := OpenStack(SelfLinked(info), [])))
    ensures o.Done? ==>
      Spent(g, old(w.st), old(w.heapStart), w.st, w.heapStart, STACKTRACE_HEADER_SIZE + |info.threadName|)
    ensures o.Failed? ==>
      w.st == old(w.st) && o == Failed(OutOfSpace) && w.Lacks(Op.BeginStacktrace(info), old(w.attempts))
    ensures o.Failed? ==>
      NoRoom(w, old(w.attempts), Room(g, old(w.st), old(w.heapStart), STACKTRACE_HEADER_SIZE + |info.threadName|))
  {
    hide Inv, Growth, Stepped, Bill, HeapBill, Room, Needed;
    ghost var s, img, c, snaps, bytes := w.st, w.mem[..], w.C(), w.snaps, STACKTRACE_HEADER_SIZE + |info.threadName|;
    o := w.BeginStacktrace(info);
    StackBegun(s, info, w.st, o);
    StackBill(g, s, info);
    if o.Done? {
      CallSpends(g, img, c, snaps, s, Op.BeginStacktrace(info), w.st, w.heapStart, bytes);
    } else {
      RecordsFit(g, img, c, snaps, s, Op.BeginStacktrace(info), bytes);
    }
  }

  lemma StackBill(g: Graph, s: State, info: StackInfo)
    requires s.pending.Pending? && s.pending.open.NoStack?
    ensures
      var s' := s.(pending := s.pending.(open := OpenStack(SelfLinked(info), [])));
      Bill(g, s') <= Bill(g, s) + STACKTRACE_HEADER_SIZE + |info.threadName| && HeapBill(g, s') == HeapBill(g, s)
    ensures RecordsEnd(s) + RecordBytes(s, Op.BeginStacktrace(info)) <=
      Bill(g, s) + STACKTRACE_HEADER_SIZE + |info.threadName|
  {
    hide HeapBytes, LogSize;
    NothingTakes();
  }

  /** The frames of the source, whichever it is. */
  method WriteSource(w: SnapshotWriter, g: Graph, source: Source, filters: seq<Str>, maxFrames: Option<nat>,
                     limit: Option<nat>, cancel: CancelFlag)
    returns (o: Outcome, result: Frames)
    requires w.Valid() && w.initialized && HasOpenStack(w.st) && ClosedGraph(g)
    requires LocalsInGraph(g, if source.CurrentStack? then source.frames else source.entries)
    requires cancel.Valid() && !cancel.Seen() && !cancel.cut
    modifies w, w.mem, w.reader, cancel
    ensures Carried(w) && HasOpenStack(w.st) && w.st.committed == old(w.st).committed && cancel.Valid()
    ensures NoCurrentFrame(source) ==>
      o.Done? && w.st == old(w.st) && result == Frames(true, false) && !cancel.Seen() && !cancel.cut
    ensures FramesWritten(w, g, OrderOf(source, filters, maxFrames, limit), cancel, o, result, NoCurrentFrame(source))
  {
    hide Inv, Growth, ClosedGraph, LocalsInGraph, FramesWritten, Wanted;
    match source {
      case CurrentStack(frames, skip) =>
        o, result := WriteFramesFromFrame(w, g, frames, skip, filters, maxFrames, limit, cancel);
      case Traceback(entries) =>
        o, result := WriteTracebackFrames(w, g, entries, filters, maxFrames, limit, cancel);
    }
  }

  predicate NoCurrentFrame(source: Source) {
    source.CurrentStack? && source.frames == []
  }

  lemma NoneWanted(source: Source)
    requires NoCurrentFrame(source)
    ensures Wanted(source) == []
  {
  }

  /**
   * One stack as one snapshot. The capture fails only if a snapshot is open, or if an extension of the
   * file is refused while it runs, or if its records and those of the graph would not fit below the limit.
   */
  method TakeSnapshot(w: SnapshotWriter, g: Graph, timestamp: U64, info: StackInfo, source: Source, filters: seq<Str>,
                      maxFrames: Option<nat>, limit: Option<nat>, cancel: CancelFlag)
    returns (o: Outcome, written: bool)
    requires w.Valid() && w.initialized && ClosedGraph(g)
    requires LocalsInGraph(g, if source.CurrentStack? then source.frames else source.entries)
    requires cancel.Valid() && !cancel.Seen() && !cancel.cut
    modifies w, w.mem, w.reader, cancel
    ensures w.Valid() && w.initialized && w.reader == old(w.reader) && (w.mem == old(w.mem) || fresh(w.mem))
    ensures cancel.Valid()
    ensures o.Done? ==>
      SnapshotTaken(g, old(w.st), w.st, timestamp, info, OrderOf(source, filters, maxFrames, limit), written,
                    cancel.Seen(), cancel.cut)
    ensures o.Done? ==> cancel.Looked(LooksFor(g, old(w.st), OrderOf(source, filters, maxFrames, limit), 0))
    ensures o.Failed? ==> !written && GivenUp(w, g, timestamp, info, OrderOf(source, filters, maxFrames, limit), o)
  {
    hide Inv, Growth, ClosedGraph, LocalsInGraph, FramesCaptured, Unfiltered, SnapshotTaken, GaveOut, LooksFor, Spent,
         Room, Wanted, SnapshotWriter.Lacks, SnapshotWriter.Valid, CaptureBytes, Finished;
    ghost var s, hs, since, order := w.st, w.heapStart, w.attempts, OrderOf(source, filters, maxFrames, limit);
    written := false;
    var result;
    o, result := CaptureStack(w, g, timestamp, info, source, filters, maxFrames, limit, cancel);
    if o.Failed? {
      return;
    }
    ghost var s2, h2, since2 := w.st, w.heapStart, w.attempts;
    RoomFromStart(g, s, hs, s2, h2, CaptureBytes(info, order), 0);
    o, written := FinishSnapshot(w, g, result);
    if o.Failed? {
      EndLackedBefore(w, since2, since);
    } else if NoCurrentFrame(source) {
      NoneWanted(source);
      NothingTaken(g, s, timestamp, info, s2, w.st, order);
    } else {
      TakenSo(g, s, timestamp, info, s2, w.st, order, result, written, cancel.Seen(), cancel.cut);
    }
  }

  /** Begin the snapshot and its stacktrace, and write the frames. */
  method CaptureStack(w: SnapshotWriter, g: Graph, timestamp: U64, info: StackInfo, source: Source, filters: seq<Str>,
                      maxFrames: Option<nat>, limit: Option<nat>, cancel: CancelFlag)
    returns (o: Outcome, result: Frames)
    requires w.Valid() && w.initialized && ClosedGraph(g)
    requires LocalsInGraph(g, if source.CurrentStack? then source.frames else source.entries)
    requires cancel.Valid() && !cancel.Seen() && !cancel.cut
    modifies w, w.mem, w.reader, cancel
    ensures w.Valid() && w.initialized && w.reader == old(w.reader) && (w.mem == old(w.mem) || fresh(w.mem))
    ensures cancel.Valid()
    ensures old(w.attempts) <= w.attempts && w.st.committed == old(w.st).committed
    ensures o.Done? ==> old(w.st).pending.Idle? && HasOpenStack(w.st) && w.st.pending.stacks == []
    ensures o.Done? ==>
      if NoCurrentFrame(source)
        then w.st == Begun(old(w.st), timestamp, info) && result == Frames(true, false) && !cancel.Seen() && !cancel.cut
      else FramesCaptured(g, Begun(old(w.st), timestamp, info), w.st, OrderOf(source, filters, maxFrames, limit),
                          result, cancel.Seen(), cancel.cut)
    ensures o.Done? ==> cancel.Looked(LooksFor(g, old(w.st), OrderOf(source, filters, maxFrames, limit), 0))
    ensures o.Done? ==>
      Spent(g, old(w.st), old(w.heapStart), w.st, w.heapStart,
            CaptureBytes(info, OrderOf(source, filters, maxFrames, limit)))
    ensures o.Failed? ==> GivenUp(w, g, timestamp, info, OrderOf(source, filters, maxFrames, limit), o)
  {
    hide Inv, Growth, ClosedGraph, LocalsInGraph, FramesCaptured, Unfiltered, GaveOut, LooksFor, Spent, Room, Wanted,
         SnapshotWriter.Lacks, SnapshotWriter.Valid, Cat, EncFrame;
    ghost var s, hs, since, order := w.st, w.heapStart, w.attempts, OrderOf(source, filters, maxFrames, limit);
    result := Frames(false, false);
    o := BeginCapture(w, g, timestamp, info);
    ghost var head, body :=
      SNAPSHOT_HEADER_SIZE + (STACKTRACE_HEADER_SIZE + |info.threadName|), |Cat(EncFrame, All(order))|;
    MoreRoom(g, s, hs, head, head + body);
    if o.Failed? {
      return;
    }
    ghost var s1, h1, since1 := w.st, w.heapStart, w.attempts;
    RoomFromStart(g, s, hs, s1, h1, head, body);
    LooksFromBegun(g, s, s1, order);
    o, result := WriteSource(w, g, source, filters, maxFrames, limit, cancel);
    if o.Failed? {
      GaveOutBefore(w, g, All(order), since1, since);
      return;
    }
    PendingKept(g, s, timestamp, info, w.st, order, result, cancel.Seen(), cancel.cut);
    SpentFurther(g, s, hs, s1, h1, w.st, w.heapStart, head, body);
  }

  lemma EndLackedBefore(w: SnapshotWriter, since: nat, since0: nat)
    requires (w.Lacks(Op.EndSnapshot(false), since) || w.Lacks(Op.EndSnapshot(true), since)) && since0 <= since
    ensures w.Lacks(Op.EndSnapshot(false), since0) || w.Lacks(Op.EndSnapshot(true), since0)
  {
    hide Needed;
  }

  lemma GaveOutBefore(w: SnapshotWriter, g: Graph, frames: seq<Frame>, since: nat, since0: nat)
    requires GaveOut(w, g, frames, since) && since0 <= since
    ensures GaveOut(w, g, frames, since0)
  {
    hide LacksRecord, LocalSet, Needed, SnapshotWriter.Lacks;
    var f :| f in frames && (w.Lacks(WriteFrame(f), since) || LacksRecord(w, g, LocalSet(f), since));
    if w.Lacks(WriteFrame(f), since) {
      LacksBefore(w, WriteFrame(f), since, since0);
    } else {
      LackedBefore(w, g, LocalSet(f), since, since0);
    }
  }

  lemma LooksFromBegun(g: Graph, s: State, s1: State, order: Order)
    requires s1 == s.(pending := s1.pending)
    ensures LooksFor(g, s1, order, 0) == LooksFor(g, s, order, 0)
  {
    hide LooksBefore;
    LooksApart(g, s, s1, order, StopsAt(order, 0, 0));
  }

  lemma PendingKept(g: Graph, s: State, timestamp: U64, info: StackInfo, s2: State, order: Order, r: Frames, seen: bool,
                    cut: bool)
    requires s.pending.Idle?
    ensures
      var s1 := Begun(s, timestamp, info);
      s2 == s1 || FramesCaptured(g, s1, s2, order, r, seen, cut) ==> HasOpenStack(s2) && s2.pending.stacks == []
  {
    hide Sound, Closed, LocalsKnown, Grown;
  }
}
