/**
 * Whole runs: any careful client of the writer, with a borrowed reader looking at the shared mapping after
 * every single call.
 */
module Runs {
  import opened Bytes
  import opened Format
  import opened Log
  import opened Layout
  import opened Keeps
  import opened Reading
  import opened Writing
  import opened Space

  // ------------------------------------------------------------------
  // What a reader should see
  // ------------------------------------------------------------------

  predicate Shows(v: Snapshot, d: SnapData) {
    v.timestamp == d.timestamp && v.stacktraces == ById(d.stacks) && v.objectMap == d.objectMap
      && v.truncated == d.truncated
  }

  /** The committed snapshots, in order, and nothing else. */
  predicate ShowsAll(views: seq<Snapshot>, committed: seq<SnapData>) {
    |views| == |committed| && forall k :: 0 <= k < |views| ==> Shows(views[k], committed[k])
  }

  /** Singletons have no record; everything else is read back from its offset. */
  function ObjectAt(heap: map<nat, Rec>, offset: U64): Option<Rec> {
    if IsMagicOffset(offset) || offset !in heap then None else Some(heap[offset])
  }

  lemma {:induction false} MapOfIs(entries: seq<Entry>, id: U64)
    ensures id in MapOf(entries) <==> exists i :: 0 <= i < |entries| && entries[i].pythonId == id
    ensures id in MapOf(entries) ==>
      exists i :: 0 <= i < |entries| && entries[i].pythonId == id && entries[i].offset == MapOf(entries)[id]
  {
    if entries != [] {
      var n := |entries| - 1;
      MapOfIs(entries[..n], id);
      if id == entries[n].pythonId {
        assert entries[n].pythonId == id && entries[n].offset == MapOf(entries)[id];
      } else if id in MapOf(entries[..n]) {
        var i :| 0 <= i < n && entries[..n][i].pythonId == id && entries[..n][i].offset == MapOf(entries[..n])[id];
        assert entries[i].pythonId == id && entries[i].offset == MapOf(entries)[id];
      } else {
        forall i | 0 <= i < |entries| ensures entries[i].pythonId != id {
          assert i < n ==> entries[..n][i] == entries[i];
        }
      }
    }
  }

  lemma ViewShows(s: Snap, d: SnapData)
    requires SnapIs(s, d)
    ensures Shows(View(s), d)
  {
    forall id ensures id in MapOf(s.entries) <==> id in d.objectMap {
      MapOfIs(s.entries, id);
    }
    forall id | id in MapOf(s.entries) ensures MapOf(s.entries)[id] == d.objectMap[id] {
      MapOfIs(s.entries, id);
    }
    assert MapOf(s.entries) == d.objectMap;
  }

  lemma InvCommitted(img: seq<Byte>, c: Counters, snaps: seq<Snap>, s: State)
    requires Inv(img, c, snaps, s)
    ensures |snaps| == |s.committed| && forall k :: 0 <= k < |snaps| ==> SnapIs(snaps[k], s.committed[k])
  {
    hide HeaderOk, HeapOk, PendingOk, TablesGood, InOrder, SnapsOk, SnapIs;
    Parts(img, c, snaps, s);
  }

  lemma InvHeap(img: seq<Byte>, c: Counters, snaps: seq<Snap>, s: State, offset: U64)
    requires Inv(img, c, snaps, s) && s.committed != []
    ensures c.heapStart <= |img| <= MAX_FILE_SIZE && At(img, HEAP_POS_AT, LE(c.heapStart, 8))
    ensures offset in s.heap ==> !IsMagicOffset(offset) && At(img, c.heapStart + offset, EncRec(s.heap[offset]))
  {
    hide PendingOk, TablesGood, SnapsOk, SnapIs, At, LE, EncRec;
    Parts(img, c, snaps, s);
  }

  /** Look at everything through a reader that shares the mapping. */
  method Observe(w: SnapshotWriter, r: SnapshotReader) returns (views: seq<Snapshot>)
    requires w.Valid() && w.initialized && w.reader == r
    ensures ShowsAll(views, w.st.committed)
  {
    hide Inv, Growth, Shows;
    InvHolds(w.mem[..], w.C(), w.snaps, w.st);
    InvCommitted(w.mem[..], w.C(), w.snaps, w.st);
    views := r.GetAllSnapshots(w.snaps);
    forall k | 0 <= k < |views| ensures Shows(views[k], w.st.committed[k]) {
      ViewShows(w.snaps[k], w.st.committed[k]);
    }
  }

  /** By index and all at once are the same snapshots. */
  method ObserveAt(w: SnapshotWriter, r: SnapshotReader, index: nat) returns (one: Option<Snapshot>, all: seq<Snapshot>)
    requires w.Valid() && w.initialized && w.reader == r
    ensures one == if index < |all| then Some(all[index]) else None
    ensures ShowsAll(all, w.st.committed)
  {
    hide Inv, Growth, Shows, View;
    InvHolds(w.mem[..], w.C(), w.snaps, w.st);
    InvCommitted(w.mem[..], w.C(), w.snaps, w.st);
    one := r.GetSnapshotAtIndex(index, w.snaps);
    all := r.GetAllSnapshots(w.snaps);
    forall k | 0 <= k < |all| ensures Shows(all[k], w.st.committed[k]) {
      ViewShows(w.snaps[k], w.st.committed[k]);
    }
  }

  /** The newest snapshot. */
  method ObserveLatest(w: SnapshotWriter, r: SnapshotReader) returns (view: Snapshot)
    requires w.Valid() && w.initialized && w.reader == r && w.st.committed != []
    ensures Shows(view, w.st.committed[|w.st.committed| - 1])
  {
    hide Inv, Growth;
    InvHolds(w.mem[..], w.C(), w.snaps, w.st);
    InvCommitted(w.mem[..], w.C(), w.snaps, w.st);
    var latest := r.GetLatestSnapshot(w.snaps);
    ViewShows(w.snaps[|w.snaps| - 1], w.st.committed[|w.snaps| - 1]);
    view := latest.value;
  }

  /** Once a snapshot is committed, every heap record can be read back at its offset, wherever the heap is now. */
  method ObserveObject(w: SnapshotWriter, r: SnapshotReader, offset: U64) returns (obj: Option<Rec>)
    requires w.Valid() && w.initialized && w.reader == r
    requires w.st.committed != [] && GoodOffset(w.st, offset)
    ensures obj == ObjectAt(w.st.heap, offset)
  {
    hide Inv, Growth, EncRec, At;
    InvHeap(w.mem[..], w.C(), w.snaps, w.st, offset);
    obj := ReadObject(r.data[..], offset, w.heapStart, if IsMagicOffset(offset) then Float(0) else w.st.heap[offset]);
  }

  // ------------------------------------------------------------------
  // One call
  // ------------------------------------------------------------------

  /** Where each frame of the open stacktrace starts. */
  ghost predicate FrameStarts(c: Counters, s: State, saved: seq<nat>) {
    HasOpenStack(s) ==>
      && |saved| == |s.pending.open.frames|
      && forall i :: 0 <= i < |saved| ==>
         saved[i] == c.stackPos + |OpenStackBytes(s.pending.open.info, s.pending.open.frames[..i])|
  }

  /** One call. An object writer returns where the record is. */
  method Perform(w: SnapshotWriter, op: Op, saved: seq<nat>) returns (o: Outcome, offset: nat, saved': seq<nat>)
    requires w.Valid() && w.initialized && Allowed(w.st, op) && FrameStarts(w.C(), w.st, saved)
    modifies w, w.mem, w.reader
    ensures w.Valid() && w.initialized && w.reader == old(w.reader) && (w.mem == old(w.mem) || fresh(w.mem))
    ensures Stepped(old(w.st), op, w.st, o) && w.Fair(op, o)
    ensures FrameStarts(w.C(), w.st, saved')
    ensures offset == if op.Write? && o.Done? then old(w.st).heapEnd else 0
  {
    hide Inv, Growth, Stepped, FrameStarts, Allowed;
    offset := 0;
    if op.BeginStacktrace? || op.WriteFrame? || op.RollbackFrame? {
      o, saved' := PerformOnFrames(w, op, saved);
    } else if op.Write? || op.Register? || op.RegisterBoth? {
      o, offset := PerformOnObjects(w, op, saved);
      saved' := saved;
    } else {
      o := PerformOnSnapshot(w, op, saved);
      saved' := saved;
    }
  }

  method PerformOnFrames(w: SnapshotWriter, op: Op, saved: seq<nat>) returns (o: Outcome, saved': seq<nat>)
    requires op.BeginStacktrace? || op.WriteFrame? || op.RollbackFrame?
    requires w.Valid() && w.initialized && Allowed(w.st, op) && FrameStarts(w.C(), w.st, saved)
    modifies w, w.mem, w.reader
    ensures w.Valid() && w.initialized && w.reader == old(w.reader) && (w.mem == old(w.mem) || fresh(w.mem))
    ensures Stepped(old(w.st), op, w.st, o) && w.Fair(op, o)
    ensures FrameStarts(w.C(), w.st, saved')
  {
    hide Inv, Growth, BeforeLastFrame, OpenStackBytes;
    saved' := saved;
    ghost var s := w.st;
    match op
    case BeginStacktrace(info) =>
      o := w.BeginStacktrace(info);
      if o.Done? {
        saved' := [];
      }
    case WriteFrame(f) =>
      var start := w.writeOffset;
      o := w.WriteFrameRecord(f);
      if o.Done? {
        saved' := saved + [start];
        FrameStarted(w.C(), s, f, saved, start);
      }
    case RollbackFrame =>
      LastFrameStart(w.C(), s, saved);
      w.RollbackWriteOffset(saved[|saved| - 1]);
      saved' := saved[..|saved| - 1];
      o := Done;
      FrameDropped(w.C(), s, saved);
  }

  method PerformOnSnapshot(w: SnapshotWriter, op: Op, ghost saved: seq<nat>) returns (o: Outcome)
    requires op.BeginSnapshot? || op.EndStacktrace? || op.DiscardStacktrace? || op.EndSnapshot? || op.DiscardSnapshot?
    requires w.Valid() && w.initialized && Allowed(w.st, op) && FrameStarts(w.C(), w.st, saved)
    modifies w, w.mem, w.reader
    ensures w.Valid() && w.initialized && w.reader == old(w.reader) && (w.mem == old(w.mem) || fresh(w.mem))
    ensures Stepped(old(w.st), op, w.st, o) && w.Fair(op, o)
    ensures FrameStarts(w.C(), w.st, saved)
  {
    hide Inv, Growth, Stepped, OpenStackBytes;
    ghost var s := w.st;
    match op {
      case BeginSnapshot(ts) =>
        o := w.BeginSnapshot(ts);
      case EndStacktrace(t, d) =>
        o := w.EndStacktrace(t, d);
      case DiscardStacktrace =>
        w.DiscardCurrentStacktrace();
        o := Done;
      case EndSnapshot(t) =>
        o := w.EndSnapshot(t);
      case DiscardSnapshot =>
        w.DiscardCurrentSnapshot();
        o := Done;
    }
    StackKept(s, op, w.st, o);
  }

  method PerformOnObjects(w: SnapshotWriter, op: Op, ghost saved: seq<nat>) returns (o: Outcome, offset: nat)
    requires op.Write? || op.Register? || op.RegisterBoth?
    requires w.Valid() && w.initialized && Allowed(w.st, op) && FrameStarts(w.C(), w.st, saved)
    modifies w, w.mem, w.reader
    ensures w.Valid() && w.initialized && w.reader == old(w.reader) && (w.mem == old(w.mem) || fresh(w.mem))
    ensures Stepped(old(w.st), op, w.st, o) && w.Fair(op, o)
    ensures FrameStarts(w.C(), w.st, saved)
    ensures offset == if op.Write? && o.Done? then old(w.st).heapEnd else 0
  {
    hide Inv, Growth, Stepped, Apply, FrameStarts, GoodOffset, SnapshotWriter.Afforded, SnapshotWriter.RanOut;
    ghost var s, c := w.st, w.C();
    offset := 0;
    match op {
      case Write(rec) =>
        var at;
        o, at := WriteAny(w, rec);
        if o.Done? {
          offset := at;
        }
      case Register(id, to) =>
        w.RegisterObject(id, to);
        o := Done;
      case RegisterBoth(id, to, h) =>
        w.RegisterObjectWithBothCaches(id, to, h);
        o := Done;
    }
    Applied(s, op);
    StackKept(s, op, w.st, o);
    StartsKept(c, s, w.C(), w.st, saved);
  }

  lemma StartsKept(c: Counters, s: State, c': Counters, s': State, saved: seq<nat>)
    requires FrameStarts(c, s, saved) && (HasOpenStack(s') ==> HasOpenStack(s) && s'.pending.open == s.pending.open)
    requires SameStack(s, c.stackPos, s', c'.stackPos)
    ensures FrameStarts(c', s', saved)
  {
    hide OpenStackBytes;
  }

  /** Most calls leave the open stacktrace as it is, or close it. */
  lemma StackKept(s: State, op: Op, s': State, o: Outcome)
    requires Allowed(s, op) && Stepped(s, op, s', o)
    requires !op.BeginStacktrace? && !op.WriteFrame? && !op.RollbackFrame?
    ensures HasOpenStack(s') ==> HasOpenStack(s) && s'.pending.open == s.pending.open
  {
  }

  /** The writer of the kind of `rec`. */
  method WriteAny(w: SnapshotWriter, rec: Rec) returns (o: Outcome, offset: nat)
    requires w.Valid() && w.initialized
    modifies w, w.mem, w.reader
    ensures w.WroteRecord(rec, o, offset)
  {
    hide Inv, Growth, EncRec, Stepped;
    match rec
    case Int64(v) => o, offset := w.WriteInt64(v);
    case Float(bits) => o, offset := w.WriteFloat(bits);
    case Text(StringText, t) => o, offset := w.WriteString(t);
    case Text(BytesText, t) => o, offset := w.WriteBytes(t);
    case Text(BignumText, t) => o, offset := w.WriteText(BignumText, t);
    case Elems(kind, ids) => o, offset := w.WriteSequence(kind, ids);
    case Dict(pairs) => o, offset := w.WriteDict(pairs);
    case SerObject(m) => o, offset := w.WriteSerializedObject(m);
    case SerElems(kind, ids, m) => o, offset := w.WriteSerializedSequence(kind, ids, m);
    case SerDict(pairs, m) => o, offset := w.WriteSerializedDict(pairs, m);
  }

  lemma FrameStarted(c: Counters, s: State, f: Frame, saved: seq<nat>, start: nat)
    requires HasOpenStack(s) && FrameStarts(c, s, saved)
    requires BeforeLastFrame(c, Apply(s, WriteFrame(f))) == start
    ensures FrameStarts(c, Apply(s, WriteFrame(f)), saved + [start])
  {
    hide OpenStackBytes;
    var frames := s.pending.open.frames;
    forall i | 0 <= i <= |saved|
      ensures (saved + [start])[i] == c.stackPos + |OpenStackBytes(s.pending.open.info, (frames + [f])[..i])|
    {
      assert (frames + [f])[..i] == frames[..i];
    }
  }

  lemma LastFrameStart(c: Counters, s: State, saved: seq<nat>)
    requires Allowed(s, RollbackFrame) && FrameStarts(c, s, saved)
    ensures saved != [] && saved[|saved| - 1] == BeforeLastFrame(c, s)
  {
    hide OpenStackBytes;
  }

  lemma FrameDropped(c: Counters, s: State, saved: seq<nat>)
    requires Allowed(s, RollbackFrame) && FrameStarts(c, s, saved)
    ensures saved != [] && FrameStarts(c, Apply(s, RollbackFrame), saved[..|saved| - 1])
  {
    hide OpenStackBytes;
    var frames := s.pending.open.frames;
    var n := |frames| - 1;
    forall i | 0 <= i < n ensures saved[..n][i] == c.stackPos + |OpenStackBytes(s.pending.open.info, frames[..n][..i])|
    {
      assert frames[..n][..i] == frames[..i];
    }
  }

  // ------------------------------------------------------------------
  // The main theorem on the file as a data structure
  // ------------------------------------------------------------------

  lemma {:induction false} RunSnoc(s: State, ops: seq<Op>, full: seq<bool>, op: Op, b: bool)
    requires IsRun(s, ops, full)
    requires Allowed(RunFrom(s, ops, full), op) && (b ==> NeedsSpace(op))
    ensures IsRun(s, ops + [op], full + [b])
    ensures RunFrom(s, ops + [op], full + [b]) == Step(RunFrom(s, ops, full), op, b).0
    decreases |ops|
  {
    hide Step, Allowed;
    var ops', full' := ops + [op], full + [b];
    if ops == [] {
      assert ops' == [op] && full' == [b] && ops'[1..] == [] && full'[1..] == [];
      assert RunFrom(Step(s, op, b).0, ops'[1..], full'[1..]) == Step(s, op, b).0;
    } else {
      assert ops'[1..] == ops[1..] + [op] && full'[1..] == full[1..] + [b];
      RunSnoc(Step(s, ops[0], full[0]).0, ops[1..], full[1..], op, b);
    }
  }

  /** What the client of the writer gets to know of a call. */
  datatype Event = Event(op: Op, outcome: Outcome, offset: nat)

  /** A client decides on its next call by what came of those before it, or stops. */
  type Client = seq<Event> -> Option<Op>

  /** The answer to a call. */
  function Answer(s: State, op: Op, full: bool): Event
    requires Allowed(s, op)
  {
    var o := Step(s, op, full).1;
    Event(op, o, if op.Write? && o.Done? then s.heapEnd else 0)
  }

  /** However its calls go, the client makes only calls that the capture layer may make. */
  ghost predicate Careful(client: Client, s: State, history: seq<Event>, steps: nat)
    decreases steps
  {
    steps > 0 && client(history).Some? ==>
      var op := client(history).value;
      && Allowed(s, op)
      && Careful(client, Step(s, op, false).0, history + [Answer(s, op, false)], steps - 1)
      && (NeedsSpace(op) ==> Careful(client, Step(s, op, true).0, history + [Answer(s, op, true)], steps - 1))
  }

  predicate RanOut(e: Event) {
    e.outcome == Failed(OutOfSpace)
  }

  /** A history that the log can explain, and the log after it. */
  ghost predicate Told(s: State, history: seq<Event>) {
    history == [] ||
    var n := |history| - 1;
    var e := history[n];
    && Told(s, history[..n])
    && Allowed(LogAfter(s, history[..n]), e.op)
    && (RanOut(e) ==> NeedsSpace(e.op))
    && e == Answer(LogAfter(s, history[..n]), e.op, RanOut(e))
  }

  ghost function LogAfter(s: State, history: seq<Event>): State {
    if history == [] then s
    else
      var before, e := LogAfter(s, history[..|history| - 1]), history[|history| - 1];
      if Allowed(before, e.op) then Step(before, e.op, RanOut(e)).0 else before
  }

  function Ops(history: seq<Event>): (ops: seq<Op>)
    ensures |ops| == |history| && forall i :: 0 <= i < |history| ==> ops[i] == history[i].op
  {
    seq(|history|, i requires 0 <= i < |history| => history[i].op)
  }

  function Fulls(history: seq<Event>): (full: seq<bool>)
    ensures |full| == |history| && forall i :: 0 <= i < |history| ==> full[i] == RanOut(history[i])
  {
    seq(|history|, i requires 0 <= i < |history| => RanOut(history[i]))
  }

  /** Such a history is a run of the log, so all that holds of runs holds of it. */
  lemma {:induction false} ToldIsRun(s: State, history: seq<Event>)
    requires Told(s, history)
    ensures IsRun(s, Ops(history), Fulls(history))
    ensures RunFrom(s, Ops(history), Fulls(history)) == LogAfter(s, history)
  {
    hide Step, Allowed, Answer;
    if history != [] {
      var n := |history| - 1;
      var before, e := history[..n], history[n];
      ToldIsRun(s, before);
      RunSnoc(s, Ops(before), Fulls(before), e.op, RanOut(e));
      assert Ops(before) + [e.op] == Ops(history) && Fulls(before) + [RanOut(e)] == Fulls(history);
    }
  }

  /** Every call is what the client wanted next. */
  ghost predicate Follows(client: Client, history: seq<Event>) {
    forall i :: 0 <= i < |history| ==> client(history[..i]) == Some(history[i].op)
  }

  /** The i-th look shows the log as the first i + 1 calls left it. */
  ghost predicate SeenAll(s: State, history: seq<Event>, views: seq<seq<Snapshot>>) {
    |views| == |history| && forall i :: 0 <= i < |views| ==> ShowsAll(views[i], LogAfter(s, history[..i + 1]).committed)
  }

  /** The event of a call that took the log from one state to another. */
  ghost predicate Answers(s: State, e: Event, s': State) {
    && Allowed(s, e.op) && (RanOut(e) ==> NeedsSpace(e.op))
    && e == Answer(s, e.op, RanOut(e)) && s' == Step(s, e.op, RanOut(e)).0
  }

  /** The heap has not moved, or no farther than the records of the call need. */
  ghost predicate HeapWithin(c: Counters, s: State, op: Op, heapStart: nat) {
    heapStart == c.heapStart
      || (Refusal(s, op).Done? && RecordBytes(s, op) > 0 && heapStart < 2 * (c.writeOffset + RecordBytes(s, op)))
  }

  /** An extension has been refused between two counts of attempts. */
  ghost predicate RefusedBetween(refuses: nat -> bool, from: nat, to: nat) {
    exists k: nat :: from <= k < to && refuses(k)
  }

  /** Space runs out only after a refusal, or when the calls so far may have asked for more than the limit. */
  ghost predicate SpaceLasts(s: State, heapStart: nat, history: seq<Event>, refused: bool) {
    forall i :: 0 <= i < |history| && RanOut(history[i]) ==>
      refused || Demand(heapStart, s, Ops(history[..i + 1])) > MAX_FILE_SIZE
  }

  /** All that is known of a history and the looks taken in it, with the log and the heap where they are now. */
  ghost predicate Replayed(client: Client, s: State, heapStart: nat, history: seq<Event>, views: seq<seq<Snapshot>>,
                           now: State, heapNow: nat, refused: bool) {
    && Follows(client, history) && Told(s, history) && now == LogAfter(s, history) && SeenAll(s, history, views)
    && WithinDemand(heapStart, s, Ops(history), heapNow, now) && SpaceLasts(s, heapStart, history, refused)
  }

  lemma NothingYet(client: Client, s: State, heapStart: nat, refused: bool)
    ensures Replayed(client, s, heapStart, [], [], s, heapStart, refused)
  {
  }

  lemma ReplayedSo(client: Client, s: State, heapStart: nat, history: seq<Event>, views: seq<seq<Snapshot>>,
                   now: State, heapNow: nat, refused: bool)
    requires Replayed(client, s, heapStart, history, views, now, heapNow, refused)
    ensures Follows(client, history) && Told(s, history) && now == LogAfter(s, history) && SeenAll(s, history, views)
    ensures SpaceLasts(s, heapStart, history, refused)
  {
    hide Follows, Told, LogAfter, SeenAll, WithinDemand, SpaceLasts;
  }

  lemma ReplayedNext(client: Client, s: State, heapStart: nat, history: seq<Event>, views: seq<seq<Snapshot>>, e: Event,
                     seen: seq<Snapshot>, img: seq<Byte>, c: Counters, snaps: seq<Snap>, before: State, heapNow: nat,
                     now: State, refused: bool, refused': bool)
    requires Replayed(client, s, heapStart, history, views, before, c.heapStart, refused) && Inv(img, c, snaps, before)
    requires client(history) == Some(e.op) && Answers(before, e, now) && ShowsAll(seen, now.committed)
    requires HeapWithin(c, before, e.op, heapNow) && (refused ==> refused')
    requires RanOut(e) ==> Refusal(before, e.op).Done? && (refused' || Needed(c, before, e.op) > MAX_FILE_SIZE)
    ensures Replayed(client, s, heapStart, history + [e], views + [seen], now, heapNow, refused')
  {
    hide Inv, Follows, Told, LogAfter, SeenAll, WithinDemand, SpaceLasts, Needed, RecordBytes, Refusal, Answer, Step,
         Allowed, ShowsAll;
    ToldNext(s, history, e, now);
    SeenNext(s, history, views, e, seen, now);
    FollowsNext(client, history, e);
    WithinNext(heapStart, s, history, e, img, c, snaps, before, heapNow, now);
    LastsNext(heapStart, s, history, e, img, c, snaps, before, refused, refused');
  }

  lemma CarefulNow(client: Client, s: State, history: seq<Event>, steps: nat)
    requires Careful(client, s, history, steps) && steps > 0 && client(history).Some?
    ensures Allowed(s, client(history).value)
  {
  }

  lemma Answered(s: State, op: Op, s': State, o: Outcome, offset: nat)
    requires Allowed(s, op) && Stepped(s, op, s', o) && offset == if op.Write? && o.Done? then s.heapEnd else 0
    ensures
      var e := Event(op, o, offset);
      e == Answer(s, op, RanOut(e)) && s' == Step(s, op, RanOut(e)).0 && (RanOut(e) ==> NeedsSpace(op))
  {
  }

  lemma CarefulNext(client: Client, s: State, history: seq<Event>, steps: nat, s': State, e: Event)
    requires Careful(client, s, history, steps) && steps > 0 && client(history) == Some(e.op)
    requires Answers(s, e, s')
    ensures Careful(client, s', history + [e], steps - 1)
  {
    hide Answer, Step, Allowed;
  }

  lemma FollowsNext(client: Client, history: seq<Event>, e: Event)
    requires Follows(client, history) && client(history) == Some(e.op)
    ensures Follows(client, history + [e])
  {
    var h := history + [e];
    forall i | 0 <= i < |h| ensures client(h[..i]) == Some(h[i].op) {
      assert h[..i] == history[..i] && (i == |history| ==> history[..i] == history);
    }
  }

  lemma ToldNext(s: State, history: seq<Event>, e: Event, s': State)
    requires Told(s, history) && Allowed(LogAfter(s, history), e.op)
    requires e == Answer(LogAfter(s, history), e.op, RanOut(e)) && s' == Step(LogAfter(s, history), e.op, RanOut(e)).0
    requires RanOut(e) ==> NeedsSpace(e.op)
    ensures Told(s, history + [e]) && LogAfter(s, history + [e]) == s'
  {
    hide Answer, Step, Allowed;
    assert (history + [e])[..|history|] == history;
  }

  lemma SeenNext(s: State, history: seq<Event>, views: seq<seq<Snapshot>>, e: Event, seen: seq<Snapshot>, s': State)
    requires SeenAll(s, history, views) && LogAfter(s, history + [e]) == s' && ShowsAll(seen, s'.committed)
    ensures SeenAll(s, history + [e], views + [seen])
  {
    hide ShowsAll, LogAfter;
    var h := history + [e];
    forall i | 0 <= i < |h| ensures ShowsAll((views + [seen])[i], LogAfter(s, h[..i + 1]).committed) {
      assert if i < |history| then h[..i + 1] == history[..i + 1] else h[..i + 1] == h;
    }
  }

  lemma WithinNext(heapStart: nat, start: State, history: seq<Event>, e: Event, img: seq<Byte>, c: Counters,
                   snaps: seq<Snap>, s: State, heapStart': nat, s': State)
    requires Inv(img, c, snaps, s) && Allowed(s, e.op) && s' == Step(s, e.op, RanOut(e)).0
    requires WithinDemand(heapStart, start, Ops(history), c.heapStart, s)
    requires heapStart' == c.heapStart
      || (Refusal(s, e.op).Done? && heapStart' < 2 * (c.writeOffset + RecordBytes(s, e.op)))
    ensures WithinDemand(heapStart, start, Ops(history + [e]), heapStart', s')
  {
    hide Inv, Allowed, Step, WithinDemand, Refusal, RecordBytes;
    assert Ops(history + [e]) == Ops(history) + [e.op];
    NextWithin(heapStart, start, Ops(history), img, c, snaps, s, e.op, RanOut(e), heapStart');
  }

  lemma LastsNext(heapStart: nat, start: State, history: seq<Event>, e: Event, img: seq<Byte>, c: Counters,
                  snaps: seq<Snap>, s: State, refused: bool, refused': bool)
    requires Inv(img, c, snaps, s) && Allowed(s, e.op)
    requires WithinDemand(heapStart, start, Ops(history), c.heapStart, s)
    requires SpaceLasts(start, heapStart, history, refused) && (refused ==> refused')
    requires RanOut(e) ==> Refusal(s, e.op).Done? && (refused' || Needed(c, s, e.op) > MAX_FILE_SIZE)
    ensures SpaceLasts(start, heapStart, history + [e], refused')
  {
    hide Inv, Allowed, WithinDemand, Refusal, Needed, Demand;
    var h := history + [e];
    if RanOut(e) && !refused' {
      NextFits(heapStart, start, Ops(history), img, c, snaps, s, e.op);
      assert Ops(h) == Ops(history) + [e.op];
    }
    forall i | 0 <= i < |h| && RanOut(h[i])
      ensures refused' || Demand(heapStart, start, Ops(h[..i + 1])) > MAX_FILE_SIZE
    {
      assert if i < |history| then h[..i + 1] == history[..i + 1] else h[..i + 1] == h;
    }
  }

  lemma LaterRefusal(refuses: nat -> bool, from: nat, mid: nat, to: nat, again: bool)
    requires from <= mid <= to && (again ==> mid < to && refuses(to - 1))
    ensures RefusedBetween(refuses, from, mid) || again ==> RefusedBetween(refuses, from, to)
  {
  }

  /**
   * Let any careful client use the writer, with a reader on the shared mapping that looks at the whole
   * log after every call. Wherever the file doubled or the heap slid meanwhile, and wherever space ran
   * out, the reader sees exactly the snapshots the log has committed by then: nothing in progress,
   * nothing discarded, nothing lost.
   */
  method Replay(w: SnapshotWriter, r: SnapshotReader, client: Client, steps: nat, saved: seq<nat>)
    returns (history: seq<Event>, views: seq<seq<Snapshot>>)
    requires w.Valid() && w.initialized && w.reader == r && FrameStarts(w.C(), w.st, saved)
    requires Careful(client, w.st, [], steps)
    modifies w, w.mem, w.reader
    ensures w.Valid() && w.initialized && w.reader == r
    ensures Follows(client, history) && |history| <= steps && (|history| < steps ==> client(history) == None)
    ensures Told(old(w.st), history) && w.st == LogAfter(old(w.st), history)
    ensures SeenAll(old(w.st), history, views)
    ensures SpaceLasts(old(w.st), old(w.heapStart), history, RefusedBetween(w.refuses, old(w.attempts), w.attempts))
  {
    hide Inv, Growth, FrameStarts, Allowed, Step, Careful, Replayed, Answer, RefusedBetween, Answers,
         SnapshotWriter.Valid;
    ghost var s, hs, from := w.st, w.heapStart, w.attempts;
    history, views := [], [];
    var starts := saved;
    NothingYet(client, s, hs, RefusedBetween(w.refuses, from, from));
    while |history| < steps
      invariant w.Valid() && w.initialized && w.reader == r && (w.mem == old(w.mem) || fresh(w.mem))
      invariant |history| <= steps && FrameStarts(w.C(), w.st, starts)
      invariant Careful(client, w.st, history, steps - |history|)
      invariant from <= w.attempts
      invariant Replayed(client, s, hs, history, views, w.st, w.heapStart, RefusedBetween(w.refuses, from, w.attempts))
    {
      var next := client(history);
      if next.None? {
        break;
      }
      ghost var before, steps0, mid := w.st, steps - |history|, w.attempts;
      ghost var img, c, snaps := w.mem[..], w.C(), w.snaps;
      CarefulNow(client, before, history, steps0);
      var e, seen;
      e, seen, starts := Turn(w, r, next.value, starts);
      ghost var again := RanOut(e) && Needed(c, before, e.op) <= MAX_FILE_SIZE;
      LaterRefusal(w.refuses, from, mid, w.attempts, again);
      CarefulNext(client, before, history, steps0, w.st, e);
      ReplayedNext(client, s, hs, history, views, e, seen, img, c, snaps, before, w.heapStart, w.st,
                   RefusedBetween(w.refuses, from, mid), RefusedBetween(w.refuses, from, w.attempts));
      history, views := history + [e], views + [seen];
    }
    ReplayedSo(client, s, hs, history, views, w.st, w.heapStart, RefusedBetween(w.refuses, from, w.attempts));
  }

  /** One call and the look after it. */
  method Turn(w: SnapshotWriter, r: SnapshotReader, op: Op, saved: seq<nat>)
    returns (e: Event, seen: seq<Snapshot>, starts: seq<nat>)
    requires w.Valid() && w.initialized && w.reader == r && FrameStarts(w.C(), w.st, saved) && Allowed(w.st, op)
    modifies w, w.mem, w.reader
    ensures w.Valid() && w.initialized && w.reader == r && (w.mem == old(w.mem) || fresh(w.mem))
    ensures Inv(old(w.mem[..]), old(w.C()), old(w.snaps), old(w.st)) && FrameStarts(w.C(), w.st, starts)
    ensures e.op == op && Answers(old(w.st), e, w.st) && ShowsAll(seen, w.st.committed)
    ensures HeapWithin(old(w.C()), old(w.st), op, w.heapStart) && old(w.attempts) <= w.attempts
    ensures RanOut(e) ==>
      old(Refusal(w.st, op)).Done? && (w.Again(old(w.attempts)) || old(Needed(w.C(), w.st, op)) > MAX_FILE_SIZE)
  {
    hide Inv, Growth, Stepped, FrameStarts, Allowed, ShowsAll, Step, Needed, RecordBytes, Refusal, Answer;
    ghost var s := w.st;
    var o, offset;
    o, offset, starts := Perform(w, op, saved);
    seen := Observe(w, r);
    Answered(s, op, w.st, o, offset);
    e := Event(op, o, offset);
  }

  /** The same from the beginning: a new file, its header block, and a reader that borrows the mapping. */
  method ReplayFresh(refuses: nat -> bool, client: Client, steps: nat)
    returns (history: seq<Event>, views: seq<seq<Snapshot>>)
    requires Careful(client, Empty, [], steps)
    ensures Follows(client, history) && |history| <= steps && (|history| < steps ==> client(history) == None)
    ensures Told(Empty, history) && SeenAll(Empty, history, views)
    ensures (forall k: nat :: !refuses(k)) ==> SpaceLasts(Empty, RECORDS_START + INITIAL_RECORDS_SIZE, history, false)
  {
    hide Inv, Growth, Careful, Told, SeenAll, SpaceLasts, Follows, FrameStarts;
    var w := new SnapshotWriter(refuses);
    var o := w.Initialize();
    var r := new SnapshotReader(w.mem);
    w.SetBorrowedReader(r);
    FreshStarts(w.C(), w.st);
    history, views := Replay(w, r, client, steps, []);
    LastsUnrefused(w, history);
  }

  lemma LastsUnrefused(w: SnapshotWriter, history: seq<Event>)
    requires SpaceLasts(Empty, RECORDS_START + INITIAL_RECORDS_SIZE, history, RefusedBetween(w.refuses, 0, w.attempts))
    ensures (forall k: nat :: !w.refuses(k)) ==> SpaceLasts(Empty, RECORDS_START + INITIAL_RECORDS_SIZE, history, false)
  {
  }

  lemma FreshStarts(c: Counters, s: State)
    requires !HasOpenStack(s)
    ensures FrameStarts(c, s, [])
  {
  }

  // ------------------------------------------------------------------
  // Who is careful
  // ------------------------------------------------------------------

  /** Make these calls in turn, and stop at the first that runs out of space. */
  function StopAtFull(ops: seq<Op>): Client {
    (history: seq<Event>) =>
      if |history| < |ops| && (history == [] || !RanOut(history[|history| - 1])) then Some(ops[|history|]) else None
  }

  function NoneFull(n: nat): (full: seq<bool>)
    ensures |full| == n && forall i :: 0 <= i < n ==> !full[i]
  {
    seq(n, _ => false)
  }

  lemma {:induction false} StoppingIsCareful(ops: seq<Op>, s: State, history: seq<Event>, steps: nat)
    requires |history| <= |ops| && IsRun(s, ops[|history|..], NoneFull(|ops| - |history|))
    requires history == [] || !RanOut(history[|history| - 1])
    ensures Careful(StopAtFull(ops), s, history, steps)
    decreases steps
  {
    hide Step, Allowed, Answer, IsRun, NoneFull;
    if steps > 0 && |history| < |ops| {
      var op := ops[|history|];
      RestIsRun(ops, s, |history|);
      AnswersWith(s, op);
      StoppingIsCareful(ops, Step(s, op, false).0, history + [Answer(s, op, false)], steps - 1);
      if NeedsSpace(op) && !RanOut(Answer(s, op, true)) {
        StoppingIsCareful(ops, Step(s, op, true).0, history + [Answer(s, op, true)], steps - 1);
      }
      if NeedsSpace(op) && RanOut(Answer(s, op, true)) {
        StoppedIsCareful(ops, Step(s, op, true).0, history + [Answer(s, op, true)], steps - 1);
      }
    }
  }

  lemma RestIsRun(ops: seq<Op>, s: State, n: nat)
    requires n < |ops| && IsRun(s, ops[n..], NoneFull(|ops| - n))
    ensures Allowed(s, ops[n]) && IsRun(Step(s, ops[n], false).0, ops[n + 1..], NoneFull(|ops| - (n + 1)))
  {
    hide Step, Allowed;
    assert ops[n..][0] == ops[n] && ops[n..][1..] == ops[n + 1..]
      && NoneFull(|ops| - n)[1..] == NoneFull(|ops| - (n + 1));
  }

  lemma StoppedIsCareful(ops: seq<Op>, s: State, history: seq<Event>, steps: nat)
    requires history != [] && RanOut(history[|history| - 1])
    ensures Careful(StopAtFull(ops), s, history, steps)
  {
    hide Step, Allowed, Answer;
  }

  lemma AnswersWith(s: State, op: Op)
    requires Allowed(s, op)
    ensures !RanOut(Answer(s, op, false))
    ensures !RanOut(Answer(s, op, true)) ==> Step(s, op, true) == Step(s, op, false)
  {
  }

  /** Calls that may be made in turn while there is room make a careful client, whatever becomes of them. */
  lemma ScriptIsCareful(s: State, ops: seq<Op>, steps: nat)
    requires IsRun(s, ops, NoneFull(|ops|))
    ensures Careful(StopAtFull(ops), s, [], steps)
  {
    assert ops[0..] == ops;
    StoppingIsCareful(ops, s, [], steps);
  }

  lemma Before(s: State, op: Op, rest: seq<Op>)
    requires Allowed(s, op) && Refusal(s, op).Done? && IsRun(Apply(s, op), rest, NoneFull(|rest|))
    ensures IsRun(s, [op] + rest, NoneFull(|rest| + 1))
    ensures RunFrom(s, [op] + rest, NoneFull(|rest| + 1)) == RunFrom(Apply(s, op), rest, NoneFull(|rest|))
  {
    hide Apply, Allowed;
    var ops, full := [op] + rest, NoneFull(|rest| + 1);
    assert ops[1..] == rest && full[1..] == NoneFull(|rest|);
  }

  /** The open stacktrace after a frame was written and taken back, with an object written and registered meanwhile. */
  ghost function TakenBack(s: State, timestamp: U64, info: StackInfo, rec: Rec, id: U64): State
    requires s.heapEnd < MAX_FILE_SIZE
  {
    s.(pending := Pending(timestamp, [], OpenStack(SelfLinked(info), [])),
       heap := s.heap[s.heapEnd := rec], heapEnd := s.heapEnd + |EncRec(rec)|, objects := s.objects[id := s.heapEnd])
  }

  lemma BegunMayWrite(s: State, timestamp: U64, info: StackInfo)
    requires s.pending.Idle?
    ensures Allowed(s, Op.BeginSnapshot(timestamp)) && Refusal(s, Op.BeginSnapshot(timestamp)).Done?
    ensures
      var s1 := Apply(s, Op.BeginSnapshot(timestamp));
      && Allowed(s1, Op.BeginStacktrace(info)) && Refusal(s1, Op.BeginStacktrace(info)).Done?
      && Apply(s1, Op.BeginStacktrace(info)) ==
         s.(pending := Pending(timestamp, [], OpenStack(SelfLinked(info), [])))
  {
  }

  lemma TakenBackSo(s: State, timestamp: U64, info: StackInfo, f: Frame, rec: Rec, id: U64)
    requires s.pending.Idle? && s.heapEnd < MAX_FILE_SIZE
    ensures
      var s2 := s.(pending := Pending(timestamp, [], OpenStack(SelfLinked(info), [])));
      var s3 := Apply(s2, WriteFrame(f));
      var s4 := Apply(s3, Write(rec));
      var s5 := Apply(s4, Register(id, s.heapEnd));
      && Allowed(s2, WriteFrame(f)) && Refusal(s2, WriteFrame(f)).Done?
      && Allowed(s3, Write(rec)) && Refusal(s3, Write(rec)).Done?
      && Allowed(s4, Register(id, s.heapEnd)) && Refusal(s4, Register(id, s.heapEnd)).Done?
      && Allowed(s5, RollbackFrame) && Refusal(s5, RollbackFrame).Done?
      && Apply(s5, RollbackFrame) == TakenBack(s, timestamp, info, rec, id)
  {
    hide EncRec;
  }

  /**
   * Such calls are those of a capture that registers what it has just written and takes a frame back, whatever
   * follows.
   */
  lemma OrdinaryCapture(s: State, timestamp: U64, info: StackInfo, f: Frame, rec: Rec, id: U64, rest: seq<Op>)
    requires s.pending.Idle? && s.heapEnd < MAX_FILE_SIZE
    requires IsRun(TakenBack(s, timestamp, info, rec, id), rest, NoneFull(|rest|))
    ensures
      var ops := [Op.BeginSnapshot(timestamp)] + ([Op.BeginStacktrace(info)] + ([WriteFrame(f)] + ([Write(rec)]
                   + ([Register(id, s.heapEnd)] + ([RollbackFrame] + rest)))));
      && IsRun(s, ops, NoneFull(|ops|))
      && RunFrom(s, ops, NoneFull(|ops|)) == RunFrom(TakenBack(s, timestamp, info, rec, id), rest, NoneFull(|rest|))
  {
    hide EncRec, IsRun, RunFrom, Apply, Allowed, NoneFull, TakenBack;
    BegunMayWrite(s, timestamp, info);
    TakenBackSo(s, timestamp, info, f, rec, id);
    var s1 := Apply(s, Op.BeginSnapshot(timestamp));
    var s2 := Apply(s1, Op.BeginStacktrace(info));
    var s3 := Apply(s2, WriteFrame(f));
    var s4 := Apply(s3, Write(rec));
    var r5 := [RollbackFrame] + rest;
    var r4 := [Register(id, s.heapEnd)] + r5;
    var r3 := [Write(rec)] + r4;
    var r2 := [WriteFrame(f)] + r3;
    Before(Apply(s4, Register(id, s.heapEnd)), RollbackFrame, rest);
    Before(s4, Register(id, s.heapEnd), r5);
    Before(s3, Write(rec), r4);
    Before(s2, WriteFrame(f), r3);
    Before(s1, Op.BeginStacktrace(info), r2);
    Before(s, Op.BeginSnapshot(timestamp), [Op.BeginStacktrace(info)] + r2);
  }

  /**
   * The layout in any state a writer can be in: parts in order, at most 16 GiB, at most 10 extensions and 13
   * relocations.
   */
  lemma LayoutBounded(w: SnapshotWriter)
    requires w.Valid() && w.initialized
    ensures RECORDS_START <= w.writeOffset == RecordsEnd(w.st) <= w.heapStart
    ensures w.heapStart + w.heapOffset <= w.mem.Length <= MAX_FILE_SIZE && w.heapOffset == w.st.heapEnd
    ensures w.extensions <= 10 && w.relocations <= 13
  {
    hide Inv, Growth;
    InvOrder(w.mem[..], w.C(), w.snaps, w.st);
    WritesAtEnd(w.mem[..], w.C(), w.snaps, w.st);
    GrowthBounded(w.mem.Length, w.doublings, w.extensions, w.heapStart, w.relocations);
  }
}
