/** Each call of the writer, seen as writes to the image, keeps the invariant of the layout. */
module Keeps {
  import opened Bytes
  import opened Format
  import opened Log
  import opened Layout

  /** What a write behind the records leaves alone. */
  lemma RecordFrame(img: seq<Byte>, img': seq<Byte>, c: Counters, bytes: seq<Byte>, snaps: seq<Snap>, s: State)
    requires Inv(img, c, snaps, s)
    requires Wrote(img, img', c.writeOffset, bytes) && c.writeOffset + |bytes| <= c.heapStart
    ensures HeaderOk(img', c) && CommittedOk(img', c, snaps, s.committed) && PendingOk(img', c, snaps, s.pending)
    ensures HeapOk(img', c, s.heap)
  {
    hide At, SameOn, HeaderOk, HeapOk, CommittedOk, PendingOk, TablesGood;
    Parts(img, c, snaps, s);
    InvBounds(img, c, snaps, s);
    Narrow(img, img', 0, c.writeOffset, 0, FILE_HEADER_SIZE);
    HeaderFrame(img, img', c);
    Narrow(img, img', 0, c.writeOffset, RECORDS_START, c.writeOffset);
    CommittedFrame(img, img', c, snaps, s.committed, c.writeOffset);
    PendingFrame(img, img', c, snaps, s.pending);
    Narrow(img, img', c.writeOffset + |bytes|, |img|, c.heapStart, c.heapStart + c.heapOffset);
    HeapFrame(img, img', c, s.heap);
  }

  lemma HeapWriteKeeps(img: seq<Byte>, img': seq<Byte>, c: Counters, rec: Rec, snaps: seq<Snap>, s: State)
    requires Inv(img, c, snaps, s)
    requires Wrote(img, img', c.heapStart + c.heapOffset, EncRec(rec))
    requires c.heapStart + c.heapOffset + |EncRec(rec)| <= |img|
    ensures Inv(img', c.(heapOffset := c.heapOffset + |EncRec(rec)|), snaps, Apply(s, Write(rec)))
  {
    hide At, SameOn, HeaderOk, CommittedOk, PendingOk, HeapOk, TablesGood, EncRec;
    Parts(img, c, snaps, s);
    var c' := c.(heapOffset := c.heapOffset + |EncRec(rec)|);
    var at := c.heapStart + c.heapOffset;
    InvBounds(img, c, snaps, s);
    Narrow(img, img', 0, at, 0, FILE_HEADER_SIZE);
    HeaderFrame(img, img', c);
    HeaderCounters(img', c, c');
    Narrow(img, img', 0, at, RECORDS_START, c.writeOffset);
    CommittedFrame(img, img', c, snaps, s.committed, c.writeOffset);
    CommittedCounters(img', c, c', snaps, s.committed);
    PendingFrame(img, img', c, snaps, s.pending);
    PendingCounters(img', c, c', snaps, s.pending);
    HeapGrows(img, img', c, rec, s.heap);
    StepKeepsTables(s, Write(rec), false);
    Parts(img', c.(heapOffset := c.heapOffset + |EncRec(rec)|), snaps, Apply(s, Write(rec)));
  }

  lemma HeapGrows(img: seq<Byte>, img': seq<Byte>, c: Counters, rec: Rec, heap: map<nat, Rec>)
    requires HeapOk(img, c, heap) && c.heapStart + c.heapOffset <= |img|
    requires Wrote(img, img', c.heapStart + c.heapOffset, EncRec(rec))
    ensures HeapOk(img', c.(heapOffset := c.heapOffset + |EncRec(rec)|), heap[c.heapOffset := rec])
  {
    hide At, SameOn, EncRec;
    Narrow(img, img', 0, c.heapStart + c.heapOffset, c.heapStart, c.heapStart + c.heapOffset);
    HeapFrame(img, img', c, heap);
  }

  lemma HeaderCounters(img: seq<Byte>, c: Counters, c': Counters)
    requires HeaderOk(img, c)
    requires c'.lastSnapshotPos == c.lastSnapshotPos && c'.snapshotCount == c.snapshotCount
    requires c'.heapStart == c.heapStart
    ensures HeaderOk(img, c')
  {
    hide At, LE;
  }

  lemma HeapCounters(img: seq<Byte>, c: Counters, c': Counters, heap: map<nat, Rec>)
    requires HeapOk(img, c, heap) && c'.heapStart == c.heapStart && c'.heapOffset == c.heapOffset
    ensures HeapOk(img, c', heap)
  {
    hide At, EncRec;
  }

  /** A call that only appends to the records: what is left is the open part and the tables. */
  lemma RecordKeeps(img: seq<Byte>, img': seq<Byte>, c: Counters, c': Counters, bytes: seq<Byte>, snaps: seq<Snap>,
                    s: State, s': State)
    requires Inv(img, c, snaps, s)
    requires Wrote(img, img', c.writeOffset, bytes) && c.writeOffset + |bytes| <= c.heapStart
    requires c'.writeOffset == c.writeOffset + |bytes|
    requires c'.heapStart == c.heapStart && c'.heapOffset == c.heapOffset
    requires c'.lastSnapshotPos == c.lastSnapshotPos && c'.snapshotCount == c.snapshotCount
    requires PendingOk(img', c', snaps, s'.pending)
    requires s' == s.(pending := s'.pending)
    ensures Inv(img', c', snaps, s')
  {
    hide At, SameOn, HeaderOk, HeapOk, CommittedOk, PendingOk;
    Parts(img, c, snaps, s);
    RecordFrame(img, img', c, bytes, snaps, s);
    HeaderCounters(img', c, c');
    HeapCounters(img', c, c', s.heap);
    CommittedCounters(img', c, c', snaps, s.committed);
    Parts(img', c', snaps, s');
  }

  lemma BeginKeeps(img: seq<Byte>, img': seq<Byte>, c: Counters, ts: U64, snaps: seq<Snap>, s: State)
    requires Inv(img, c, snaps, s) && s.pending.Idle?
    requires Wrote(img, img', c.writeOffset, EncSnapHeader(ts, LastPos(snaps), 0, 0, 0, 0))
    requires c.writeOffset + SNAPSHOT_HEADER_SIZE <= c.heapStart
    ensures Inv(img',
                c.(writeOffset := c.writeOffset + SNAPSHOT_HEADER_SIZE, snapshotOpen := true,
                   snapshotPos := c.writeOffset, stackCount := 0),
                snaps, Apply(s, BeginSnapshot(ts)))
  {
    hide At, SameOn, HeaderOk, HeapOk, CommittedOk, TablesGood, EncSnapHeader, SnapsEnd;
    Parts(img, c, snaps, s);
    var c' := c.(writeOffset := c.writeOffset + SNAPSHOT_HEADER_SIZE, snapshotOpen := true,
                 snapshotPos := c.writeOffset, stackCount := 0);
    InvBounds(img, c, snaps, s);
    NothingAt(img', c'.writeOffset);
    RecordKeeps(img, img', c, c', EncSnapHeader(ts, LastPos(snaps), 0, 0, 0, 0), snaps, s, Apply(s, BeginSnapshot(ts)));
  }

  lemma NothingAt(img: seq<Byte>, pos: nat)
    requires pos <= |img|
    ensures At(img, pos, [])
  {
  }

  lemma BeginStackKeeps(img: seq<Byte>, img': seq<Byte>, c: Counters, info: StackInfo, snaps: seq<Snap>, s: State)
    requires Inv(img, c, snaps, s) && s.pending.Pending? && s.pending.open.NoStack?
    requires Wrote(img, img', c.writeOffset, EncStackHeader(SelfLinked(info), 0, 0) + info.threadName)
    requires c.writeOffset + STACKTRACE_HEADER_SIZE + |info.threadName| <= c.heapStart
    ensures Inv(img', c.(writeOffset := c.writeOffset + STACKTRACE_HEADER_SIZE + |info.threadName|,
                         stackOpen := true, stackPos := c.writeOffset, frameCount := 0),
                snaps, Apply(s, BeginStacktrace(info)))
  {
    hide At, SameOn, HeaderOk, HeapOk, CommittedOk, TablesGood, EncStackHeader, EncSnapHeader, SnapsEnd;
    Parts(img, c, snaps, s);
    var bytes := EncStackHeader(SelfLinked(info), 0, 0) + info.threadName;
    var c' := c.(writeOffset := c.writeOffset + |bytes|, stackOpen := true, stackPos := c.writeOffset, frameCount := 0);
    assert OpenStackBytes(SelfLinked(info), []) == bytes;
    RecordFrame(img, img', c, bytes, snaps, s);
    RecordKeeps(img, img', c, c', bytes, snaps, s, Apply(s, BeginStacktrace(info)));
  }

  lemma FrameKeeps(img: seq<Byte>, img': seq<Byte>, c: Counters, f: Frame, snaps: seq<Snap>, s: State)
    requires Inv(img, c, snaps, s) && HasOpenStack(s)
    requires Wrote(img, img', c.writeOffset, EncFrame(f)) && c.writeOffset + |EncFrame(f)| <= c.heapStart
    ensures Inv(img', c.(writeOffset := c.writeOffset + |EncFrame(f)|, frameCount := c.frameCount + 1), snaps,
                Apply(s, WriteFrame(f)))
  {
    hide At, SameOn, HeaderOk, HeapOk, CommittedOk, TablesGood, EncStackHeader, EncSnapHeader, SnapsEnd, EncFrame;
    Parts(img, c, snaps, s);
    var c' := c.(writeOffset := c.writeOffset + |EncFrame(f)|, frameCount := c.frameCount + 1);
    var info, frames := s.pending.open.info, s.pending.open.frames;
    OpenStackGrows(info, frames, f);
    RecordFrame(img, img', c, EncFrame(f), snaps, s);
    AtSplit(img', c.stackPos, OpenStackBytes(info, frames), EncFrame(f));
    RecordKeeps(img, img', c, c', EncFrame(f), snaps, s, Apply(s, WriteFrame(f)));
  }

  lemma OpenStackGrows(info: StackInfo, frames: seq<Frame>, f: Frame)
    ensures OpenStackBytes(info, frames + [f]) == OpenStackBytes(info, frames) + EncFrame(f)
  {
    hide EncFrame, EncStackHeader;
    assert (frames + [f])[..|frames|] == frames;
  }

  /** Where the last frame of the open stacktrace starts: what `getWriteOffset` said before it was written. */
  ghost function BeforeLastFrame(c: Counters, s: State): nat
    requires HasOpenStack(s) && s.pending.open.frames != []
  {
    c.stackPos + |OpenStackBytes(s.pending.open.info, s.pending.open.frames[..|s.pending.open.frames| - 1])|
  }

  /** A call that only moves the counters of the records back: what is left is the open part and the tables. */
  lemma BackKeeps(img: seq<Byte>, c: Counters, c': Counters, snaps: seq<Snap>, s: State, s': State)
    requires Inv(img, c, snaps, s)
    requires c'.heapStart == c.heapStart && c'.heapOffset == c.heapOffset
    requires RECORDS_START <= c'.writeOffset <= c.writeOffset
    requires c'.lastSnapshotPos == c.lastSnapshotPos && c'.snapshotCount == c.snapshotCount
    requires PendingOk(img, c', snaps, s'.pending)
    requires s' == s.(pending := s'.pending) || s' == s.(pending := s'.pending, objects := map[])
    ensures Inv(img, c', snaps, s')
  {
    hide At, SameOn, HeaderOk, HeapOk, CommittedOk, PendingOk;
    Parts(img, c, snaps, s);
    HeaderCounters(img, c, c');
    HeapCounters(img, c, c', s.heap);
    CommittedCounters(img, c, c', snaps, s.committed);
    Parts(img, c', snaps, s');
  }

  lemma RollbackKeeps(img: seq<Byte>, c: Counters, snaps: seq<Snap>, s: State)
    requires Inv(img, c, snaps, s) && Allowed(s, RollbackFrame)
    ensures c.frameCount > 0
    ensures Inv(img, c.(writeOffset := BeforeLastFrame(c, s), frameCount := c.frameCount - 1), snaps,
                Apply(s, RollbackFrame))
  {
    hide At, SameOn, HeaderOk, HeapOk, CommittedOk, TablesGood, OpenStackBytes, EncSnapHeader, SnapsEnd, EncFrame,
         EncStack, Cat;
    Parts(img, c, snaps, s);
    var info, frames := s.pending.open.info, s.pending.open.frames;
    var n := |frames| - 1;
    OpenStackGrows(info, frames[..n], frames[n]);
    assert frames[..n] + [frames[n]] == frames;
    AtSplit(img, c.stackPos, OpenStackBytes(info, frames[..n]), EncFrame(frames[n]));
    InvBounds(img, c, snaps, s);
    BackKeeps(img, c, c.(writeOffset := BeforeLastFrame(c, s), frameCount := c.frameCount - 1), snaps, s,
              Apply(s, RollbackFrame));
  }

  lemma DiscardStackKeeps(img: seq<Byte>, c: Counters, snaps: seq<Snap>, s: State)
    requires Inv(img, c, snaps, s) && HasOpenStack(s)
    ensures Inv(img, c.(writeOffset := c.stackPos, stackOpen := false, stackPos := 0, frameCount := 0), snaps,
                Apply(s, DiscardStacktrace))
  {
    hide At, SameOn, HeaderOk, HeapOk, CommittedOk, TablesGood, EncSnapHeader, SnapsEnd, EncFrame, EncStack, Cat;
    Parts(img, c, snaps, s);
    InvBounds(img, c, snaps, s);
    BackKeeps(img, c, c.(writeOffset := c.stackPos, stackOpen := false, stackPos := 0, frameCount := 0), snaps, s,
              Apply(s, DiscardStacktrace));
  }

  lemma DiscardSnapshotKeeps(img: seq<Byte>, c: Counters, snaps: seq<Snap>, s: State)
    requires Inv(img, c, snaps, s) && s.pending.Pending?
    ensures Inv(img,
                c.(writeOffset := c.snapshotPos, snapshotOpen := false, snapshotPos := 0, stackCount := 0,
                   stackOpen := false, frameCount := 0),
                snaps, Apply(s, DiscardSnapshot))
  {
    hide At, SameOn, HeaderOk, HeapOk, CommittedOk, TablesGood, EncSnapHeader, SnapsEnd, EncFrame, EncStack, Cat;
    Parts(img, c, snaps, s);
    InvBounds(img, c, snaps, s);
    BackKeeps(img, c,
              c.(writeOffset := c.snapshotPos, snapshotOpen := false, snapshotPos := 0, stackCount := 0,
                 stackOpen := false, frameCount := 0),
              snaps, s, Apply(s, DiscardSnapshot));
  }

  // ------------------------------------------------------------------
  // Closing a stacktrace
  // ------------------------------------------------------------------

  /** Filling in count and flags turns the open stacktrace into a complete record. */
  lemma StackClosed(img: seq<Byte>, i1: seq<Byte>, img': seq<Byte>, pos: nat, stack: Stack)
    requires At(img, pos, OpenStackBytes(stack.info, stack.frames))
    requires Wrote(img, i1, pos + 8, LE(|stack.frames|, 4))
    requires Wrote(i1, img', pos + 36, [StackFlags(stack.truncated, stack.depthTruncated)])
    ensures At(img', pos, EncStack(stack))
    ensures |EncStack(stack)| == |OpenStackBytes(stack.info, stack.frames)|
  {
    hide At, SameOn, EncStackHeader, EncFrame, LE, Wrote;
    var i, n, flags := stack.info, |stack.frames|, StackFlags(stack.truncated, stack.depthTruncated);
    var tail := i.threadName + Cat(EncFrame, stack.frames);
    assert OpenStackBytes(i, stack.frames) == EncStackHeader(i, 0, 0) + tail;
    assert EncStack(stack) == EncStackHeader(i, n, flags) + tail;
    AtSplit(img, pos, EncStackHeader(i, 0, 0), tail);
    AtSplit(img', pos, EncStackHeader(i, n, flags), tail);
    WroteElsewhere(img, i1, pos + 8, LE(n, 4), pos + STACKTRACE_HEADER_SIZE, tail);
    WroteElsewhere(i1, img', pos + 36, [flags], pos + STACKTRACE_HEADER_SIZE, tail);
    StackHeaderClosed(img, i1, img', pos, i, n, flags);
  }

  lemma StackHeaderClosed(img: seq<Byte>, i1: seq<Byte>, img': seq<Byte>, pos: nat, i: StackInfo, n: nat, flags: Byte)
    requires At(img, pos, EncStackHeader(i, 0, 0))
    requires Wrote(img, i1, pos + 8, LE(n, 4)) && Wrote(i1, img', pos + 36, [flags])
    ensures At(img', pos, EncStackHeader(i, n, flags))
  {
    StackHeaderAt(img, pos, i, 0, 0);
    StackHeaderAt(img', pos, i, n, flags);
    hide At, SameOn, EncStackHeader, LE, Wrote;
    assert At(i1, pos + 8, LE(n, 4)) by { WroteThere(img, i1, pos + 8, LE(n, 4)); }
    assert At(img', pos + 36, [flags]) by { WroteThere(i1, img', pos + 36, [flags]); }
    WroteElsewhere(i1, img', pos + 36, [flags], pos + 8, LE(n, 4));
    TwiceElsewhere(img, i1, img', pos + 8, LE(n, 4), pos + 36, [flags], pos, U64Bytes(i.id));
    TwiceElsewhere(img, i1, img', pos + 8, LE(n, 4), pos + 36, [flags], pos + 12, U64Bytes(i.exceptionId));
    TwiceElsewhere(img, i1, img', pos + 8, LE(n, 4), pos + 36, [flags], pos + 20, U64Bytes(i.causeId));
    TwiceElsewhere(img, i1, img', pos + 8, LE(n, 4), pos + 36, [flags], pos + 28, U64Bytes(i.contextId));
    TwiceElsewhere(img, i1, img', pos + 8, LE(n, 4), pos + 36, [flags], pos + 37, LE(|i.threadName|, 4));
  }

  lemma WroteThere(img: seq<Byte>, img': seq<Byte>, pos: nat, bytes: seq<Byte>)
    requires Wrote(img, img', pos, bytes)
    ensures At(img', pos, bytes)
  {
  }

  lemma TwiceElsewhere(img: seq<Byte>, i1: seq<Byte>, img': seq<Byte>, p: nat, a: seq<Byte>, q: nat, b: seq<Byte>,
                       at: int, bytes: seq<Byte>)
    requires Wrote(img, i1, p, a) && Wrote(i1, img', q, b) && At(img, at, bytes)
    requires at + |bytes| <= p || p + |a| <= at
    requires at + |bytes| <= q || q + |b| <= at
    ensures At(img', at, bytes)
  {
    WroteElsewhere(img, i1, p, a, at, bytes);
    WroteElsewhere(i1, img', q, b, at, bytes);
  }

  /** Between the committed snapshots and the heap there is room to write. */
  lemma BetweenFrame(img: seq<Byte>, img': seq<Byte>, c: Counters, pos: nat, bytes: seq<Byte>, snaps: seq<Snap>,
                     s: State)
    requires HeaderOk(img, c) && CommittedOk(img, c, snaps, s.committed) && HeapOk(img, c, s.heap)
    requires InOrder(|img|, c) && c.heapOffset == s.heapEnd && RECORDS_START <= c.snapshotPos
    requires SnapsEnd(snaps) == c.snapshotPos
    requires Wrote(img, img', pos, bytes) && c.snapshotPos <= pos && pos + |bytes| <= c.heapStart
    ensures HeaderOk(img', c) && CommittedOk(img', c, snaps, s.committed) && HeapOk(img', c, s.heap)
  {
    hide At, SameOn, HeaderOk, HeapOk, CommittedOk, SnapsEnd;
    Narrow(img, img', 0, pos, 0, FILE_HEADER_SIZE);
    HeaderFrame(img, img', c);
    Narrow(img, img', 0, pos, RECORDS_START, c.snapshotPos);
    CommittedFrame(img, img', c, snaps, s.committed, c.snapshotPos);
    Narrow(img, img', pos + |bytes|, |img|, c.heapStart, c.heapStart + c.heapOffset);
    HeapFrame(img, img', c, s.heap);
  }

  /** A write inside the open snapshot leaves everything outside it alone. */
  lemma InsideFrame(img: seq<Byte>, img': seq<Byte>, c: Counters, pos: nat, bytes: seq<Byte>, snaps: seq<Snap>,
                    s: State)
    requires Inv(img, c, snaps, s) && s.pending.Pending?
    requires Wrote(img, img', pos, bytes) && c.snapshotPos <= pos && pos + |bytes| <= c.heapStart
    ensures HeaderOk(img', c) && CommittedOk(img', c, snaps, s.committed) && HeapOk(img', c, s.heap)
  {
    hide At, SameOn, HeaderOk, HeapOk, CommittedOk, TablesGood, SnapsEnd, Wrote;
    Parts(img, c, snaps, s);
    BetweenFrame(img, img', c, pos, bytes, snaps, s);
  }

  function StackCounted(c: Counters): Counters {
    c.(stackCount := c.stackCount + 1, stackOpen := false, stackPos := 0, frameCount := 0)
  }

  lemma EndStackKeeps(img: seq<Byte>, i1: seq<Byte>, img': seq<Byte>, c: Counters, t: bool, d: bool, snaps: seq<Snap>,
                      s: State)
    requires Inv(img, c, snaps, s) && HasOpenStack(s)
    requires Wrote(img, i1, c.stackPos + 8, LE(c.frameCount, 4)) && Wrote(i1, img', c.stackPos + 36, [StackFlags(t, d)])
    ensures Inv(img', StackCounted(c), snaps, Apply(s, EndStacktrace(t, d)))
  {
    hide At, SameOn, HeaderOk, HeapOk, CommittedOk, PendingOk, TablesGood, LE, Wrote, StackFlags;
    var c', s' := StackCounted(c), Apply(s, EndStacktrace(t, d));
    Parts(img, c, snaps, s);
    EndStackFrame(img, i1, img', c, t, d, snaps, s);
    StackJoins(img, i1, img', c, t, d, snaps, s);
    HeaderCounters(img', c, c');
    HeapCounters(img', c, c', s.heap);
    CommittedCounters(img', c, c', snaps, s.committed);
    StepKeepsTables(s, EndStacktrace(t, d), false);
    Parts(img', c', snaps, s');
  }

  /** The open stacktrace, completed, is the last one of the snapshot. */
  lemma StackJoins(img: seq<Byte>, i1: seq<Byte>, img': seq<Byte>, c: Counters, t: bool, d: bool, snaps: seq<Snap>,
                   s: State)
    requires Inv(img, c, snaps, s) && HasOpenStack(s)
    requires Wrote(img, i1, c.stackPos + 8, LE(c.frameCount, 4)) && Wrote(i1, img', c.stackPos + 36, [StackFlags(t, d)])
    ensures PendingOk(img', StackCounted(c), snaps, Apply(s, EndStacktrace(t, d)).pending)
  {
    hide At, SameOn, HeaderOk, HeapOk, CommittedOk, TablesGood, EncStackHeader, EncSnapHeader, SnapsEnd, EncStack,
         EncFrame, LE, Wrote, StackFlags, Cat;
    Parts(img, c, snaps, s);
    var p := s.pending;
    var stack := Stack(p.open.info, t, d, p.open.frames);
    EndStackFrame(img, i1, img', c, t, d, snaps, s);
    StackClosed(img, i1, img', c.stackPos, stack);
    StacksGrow(img', StacksStart(c), p.stacks, stack);
  }

  lemma StacksGrow(img: seq<Byte>, pos: nat, stacks: seq<Stack>, stack: Stack)
    requires At(img, pos, Cat(EncStack, stacks)) && At(img, pos + |Cat(EncStack, stacks)|, EncStack(stack))
    ensures At(img, pos, Cat(EncStack, stacks + [stack]))
    ensures |Cat(EncStack, stacks + [stack])| == |Cat(EncStack, stacks)| + |EncStack(stack)|
  {
    hide At, EncStack;
    assert (stacks + [stack])[..|stacks|] == stacks;
    AtSplit(img, pos, Cat(EncStack, stacks), EncStack(stack));
  }

  /** What the two field writes of `endStacktrace` leave alone. */
  lemma EndStackFrame(img: seq<Byte>, i1: seq<Byte>, img': seq<Byte>, c: Counters, t: bool, d: bool, snaps: seq<Snap>,
                      s: State)
    requires Inv(img, c, snaps, s) && HasOpenStack(s)
    requires Wrote(img, i1, c.stackPos + 8, LE(c.frameCount, 4)) && Wrote(i1, img', c.stackPos + 36, [StackFlags(t, d)])
    ensures HeaderOk(img', c) && CommittedOk(img', c, snaps, s.committed) && HeapOk(img', c, s.heap)
    ensures |img'| == |img|
    ensures At(img', c.snapshotPos, EncSnapHeader(s.pending.timestamp, LastPos(snaps), 0, 0, 0, 0))
    ensures At(img', StacksStart(c), Cat(EncStack, s.pending.stacks))
  {
    hide At, SameOn, HeaderOk, HeapOk, CommittedOk, TablesGood, EncStackHeader, EncSnapHeader, SnapsEnd, EncStack, LE;
    Parts(img, c, snaps, s);
    var b := [StackFlags(t, d)];
    InvBounds(img, c, snaps, s);
    TwiceFrame(img, i1, img', c, c.stackPos + 8, LE(c.frameCount, 4), c.stackPos + 36, b, snaps, s);
    TwiceElsewhere(img, i1, img', c.stackPos + 8, LE(c.frameCount, 4), c.stackPos + 36, b,
                   c.snapshotPos, EncSnapHeader(s.pending.timestamp, LastPos(snaps), 0, 0, 0, 0));
    TwiceElsewhere(img, i1, img', c.stackPos + 8, LE(c.frameCount, 4), c.stackPos + 36, b,
                   StacksStart(c), Cat(EncStack, s.pending.stacks));
  }

  lemma TwiceFrame(img: seq<Byte>, i1: seq<Byte>, img': seq<Byte>, c: Counters, p: nat, a: seq<Byte>, q: nat,
                   b: seq<Byte>, snaps: seq<Snap>, s: State)
    requires Inv(img, c, snaps, s) && s.pending.Pending?
    requires Wrote(img, i1, p, a) && c.snapshotPos <= p && p + |a| <= c.heapStart
    requires Wrote(i1, img', q, b) && c.snapshotPos <= q && q + |b| <= c.heapStart
    ensures HeaderOk(img', c) && CommittedOk(img', c, snaps, s.committed) && HeapOk(img', c, s.heap)
    ensures |img'| == |img|
  {
    hide At, SameOn, HeaderOk, HeapOk, CommittedOk, TablesGood, SnapsEnd;
    Parts(img, c, snaps, s);
    InsideFrame(img, i1, c, p, a, snaps, s);
    BetweenFrame(i1, img', c, q, b, snaps, s);
  }

  // ------------------------------------------------------------------
  // Closing a snapshot
  // ------------------------------------------------------------------

  /** The fields `endSnapshot` fills in are neighbours, too. */
  function SnapUpdate(stackCount: nat, mapPos: nat, mapCount: nat, flags: Byte): (r: seq<Byte>)
    ensures |r| == 17
  {
    LE(stackCount, 4) + LE(mapPos, 8) + LE(mapCount, 4) + [flags]
  }

  function NewSnap(c: Counters, snaps: seq<Snap>, p: Pending, truncated: bool, entries: seq<Entry>): Snap
    requires p.Pending? && c.snapshotPos <= MAX_FILE_SIZE && LastPos(snaps) <= MAX_FILE_SIZE
  {
    Snap(c.snapshotPos, LastPos(snaps), p.timestamp, truncated, p.stacks, entries)
  }

  lemma SnapClosed(img: seq<Byte>, i1: seq<Byte>, i2: seq<Byte>, snap: Snap)
    requires At(img, snap.pos, EncSnapHeader(snap.timestamp, snap.prev, 0, 0, 0, 0))
    requires At(img, snap.pos + SNAPSHOT_HEADER_SIZE, Cat(EncStack, snap.stacks))
    requires Wrote(img, i1, MapPos(snap), Cat(EncEntry, snap.entries))
    requires Wrote(i1, i2, snap.pos + 16,
                   SnapUpdate(|snap.stacks|, MapPos(snap), |snap.entries|, if snap.truncated then 0x01 else 0))
    ensures At(i2, snap.pos, EncSnap(snap))
  {
    hide At, SameOn, EncSnapHeader, EncStack, EncEntry, LE, Wrote, SnapUpdate;
    var flags: Byte := if snap.truncated then 0x01 else 0;
    var body, table := Cat(EncStack, snap.stacks), Cat(EncEntry, snap.entries);
    var update := SnapUpdate(|snap.stacks|, MapPos(snap), |snap.entries|, flags);
    WroteThere(img, i1, MapPos(snap), table);
    WroteElsewhere(i1, i2, snap.pos + 16, update, MapPos(snap), table);
    TwiceElsewhere(img, i1, i2, MapPos(snap), table, snap.pos + 16, update, snap.pos + SNAPSHOT_HEADER_SIZE, body);
    WroteElsewhere(img, i1, MapPos(snap), table, snap.pos, EncSnapHeader(snap.timestamp, snap.prev, 0, 0, 0, 0));
    SnapHeaderClosed(i1, i2, snap.pos, snap.timestamp, snap.prev, |snap.stacks|, MapPos(snap), |snap.entries|, flags);
    var header := EncSnapHeader(snap.timestamp, snap.prev, |snap.stacks|, MapPos(snap), |snap.entries|, flags);
    AtSplit(i2, snap.pos, header, body);
    AtSplit(i2, snap.pos, header + body, table);
  }

  lemma SnapHeaderClosed(img: seq<Byte>, img': seq<Byte>, pos: nat, ts: U64, prev: U64, stackCount: nat, mapPos: nat,
                         mapCount: nat, flags: Byte)
    requires At(img, pos, EncSnapHeader(ts, prev, 0, 0, 0, 0))
    requires Wrote(img, img', pos + 16, SnapUpdate(stackCount, mapPos, mapCount, flags))
    ensures At(img', pos, EncSnapHeader(ts, prev, stackCount, mapPos, mapCount, flags))
  {
    SnapHeaderAt(img, pos, ts, prev, 0, 0, 0, 0);
    SnapHeaderAt(img', pos, ts, prev, stackCount, mapPos, mapCount, flags);
    hide At, SameOn, EncSnapHeader, LE, Wrote;
    var update := SnapUpdate(stackCount, mapPos, mapCount, flags);
    WroteThere(img, img', pos + 16, update);
    WroteElsewhere(img, img', pos + 16, update, pos, U64Bytes(ts));
    WroteElsewhere(img, img', pos + 16, update, pos + 8, U64Bytes(prev));
    AtSplit(img', pos + 16, LE(stackCount, 4) + LE(mapPos, 8) + LE(mapCount, 4), [flags]);
    AtSplit(img', pos + 16, LE(stackCount, 4) + LE(mapPos, 8), LE(mapCount, 4));
    AtSplit(img', pos + 16, LE(stackCount, 4), LE(mapPos, 8));
  }

  lemma EndSnapshotKeeps(img: seq<Byte>, i1: seq<Byte>, i2: seq<Byte>, img': seq<Byte>, c: Counters, truncated: bool,
                         entries: seq<Entry>, snaps: seq<Snap>, s: State)
    requires Inv(img, c, snaps, s) && s.pending.Pending? && s.pending.open.NoStack?
    requires MapIs(entries, s.objects)
    requires c.writeOffset + MAP_ENTRY_SIZE * |entries| <= c.heapStart
    requires Wrote(img, i1, c.writeOffset, Cat(EncEntry, entries))
    requires Wrote(i1, i2, c.snapshotPos + 16,
                   SnapUpdate(c.stackCount, c.writeOffset, |entries|, if truncated then 0x01 else 0))
    requires Wrote(i2, img', LAST_SNAPSHOT_AT, HeaderUpdate(c.snapshotPos, c.snapshotCount + 1, c.heapStart))
    ensures c.snapshotPos <= MAX_FILE_SIZE && LastPos(snaps) <= MAX_FILE_SIZE
    ensures Inv(img',
                c.(writeOffset := c.writeOffset + MAP_ENTRY_SIZE * |entries|, lastSnapshotPos := c.snapshotPos,
                   snapshotCount := c.snapshotCount + 1, snapshotOpen := false, snapshotPos := 0, stackCount := 0),
                snaps + [NewSnap(c, snaps, s.pending, truncated, entries)], Apply(s, EndSnapshot(truncated)))
  {
    hide At, SameOn, HeaderOk, HeapOk, CommittedOk, TablesGood, EncSnapHeader, SnapsEnd, EncStack, EncEntry, LE, Wrote,
         SnapUpdate, HeaderUpdate, MapIs;
    Parts(img, c, snaps, s);
    InvBounds(img, c, snaps, s);
    CatFixed(EncEntry, entries, 16);
    var c' := c.(writeOffset := c.writeOffset + MAP_ENTRY_SIZE * |entries|, lastSnapshotPos := c.snapshotPos,
                 snapshotCount := c.snapshotCount + 1, snapshotOpen := false, snapshotPos := 0, stackCount := 0);
    var snap := NewSnap(c, snaps, s.pending, truncated, entries);
    SnapClosed(img, i1, i2, snap);
    var update := SnapUpdate(c.stackCount, c.writeOffset, |entries|, if truncated then 0x01 else 0);
    TwiceFrame(img, i1, i2, c, c.writeOffset, Cat(EncEntry, entries), c.snapshotPos + 16, update, snaps, s);
    SnapshotCommitted(img, i2, img', c, c', snap, snaps, s, truncated);
    StepKeepsTables(s, EndSnapshot(truncated), false);
    Parts(img', c', snaps + [snap], Apply(s, EndSnapshot(truncated)));
  }

  /** The header update publishes the new record and disturbs nothing behind the header block. */
  lemma SnapshotCommitted(img: seq<Byte>, i2: seq<Byte>, img': seq<Byte>, c: Counters, c': Counters, snap: Snap,
                          snaps: seq<Snap>, s: State, truncated: bool)
    requires Inv(img, c, snaps, s) && s.pending.Pending? && s.pending.open.NoStack? && |i2| == |img|
    requires HeaderOk(i2, c) && CommittedOk(i2, c, snaps, s.committed) && HeapOk(i2, c, s.heap)
    requires snap.pos == c.snapshotPos && snap.prev == LastPos(snaps) && At(i2, snap.pos, EncSnap(snap))
    requires SnapEnd(snap) <= c.heapStart
    requires SnapIs(snap, SnapData(s.pending.timestamp, s.pending.stacks, s.objects, truncated))
    requires Wrote(i2, img', LAST_SNAPSHOT_AT, HeaderUpdate(c.snapshotPos, c.snapshotCount + 1, c.heapStart))
    requires c' ==
      c.(writeOffset := SnapEnd(snap), lastSnapshotPos := c.snapshotPos, snapshotCount := c.snapshotCount + 1,
         snapshotOpen := false, snapshotPos := 0, stackCount := 0)
    ensures |img'| == |img| && HeaderOk(img', c') && HeapOk(img', c', s.heap)
    ensures CommittedOk(img', c', snaps + [snap], Apply(s, EndSnapshot(truncated)).committed)
    ensures PendingOk(img', c', snaps + [snap], Idle)
  {
    hide At, HeaderOk, HeapOk, TablesGood, EncSnapHeader, EncStack, EncSnap, LE, HeaderUpdate, MapIs, SnapIs, SameOn,
         Wrote;
    Parts(img, c, snaps, s);
    InvBounds(img, c, snaps, s);
    Unchanged(i2, 0, c.heapStart);
    HeaderUpdated(i2, i2, img', c, c.snapshotPos, c.snapshotCount + 1, c.heapStart);
    HeaderCounters(img', c.(lastSnapshotPos := c.snapshotPos, snapshotCount := c.snapshotCount + 1), c');
    WroteBehindHeader(i2, img', c.snapshotPos, c.snapshotCount + 1, c.heapStart);
    Narrow(i2, img', RECORDS_START, |i2|, c.heapStart, c.heapStart + c.heapOffset);
    HeapFrame(i2, img', c, s.heap);
    HeapCounters(img', c, c', s.heap);
    SnapsFrame(i2, img', snaps, |i2|);
    AtSame(i2, img', RECORDS_START, |i2|, snap.pos, EncSnap(snap));
    SnapsGrow(img', snaps, snap);
  }

  lemma Unchanged(img: seq<Byte>, lo: nat, hi: nat)
    requires lo <= hi <= |img|
    ensures SameOn(img, img, lo, hi)
  {
  }

  lemma SnapsGrow(img: seq<Byte>, snaps: seq<Snap>, snap: Snap)
    requires SnapsOk(img, snaps) && At(img, snap.pos, EncSnap(snap)) && SnapsEnd(snaps) == snap.pos
    requires snap.prev == LastPos(snaps)
    ensures SnapsOk(img, snaps + [snap])
  {
    hide At, EncSnap;
    forall k | 0 <= k < |snaps + [snap]| ensures SnapOk(img, snaps + [snap], k) {
      if k < |snaps| {
        assert SnapOk(img, snaps, k);
      }
    }
  }
}
