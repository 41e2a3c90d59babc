/**
 * How the log is laid out in the image: the invariant of the writer, as a predicate on values, and
 * why each kind of write keeps it.
 */
module Layout {
  import opened Bytes
  import opened Format
  import opened Log

  /** The counters of the writer. */
  datatype Counters = Counters(
    writeOffset: nat, heapStart: nat, heapOffset: nat, lastSnapshotPos: nat, snapshotCount: nat,
    snapshotOpen: bool, snapshotPos: nat, stackCount: nat,
    stackOpen: bool, stackPos: nat, frameCount: nat)

  const RECORDS_START: nat := BLOCK_SIZE

  /** `bytes` were written at `pos` and nothing else changed. */
  ghost predicate Wrote(img: seq<Byte>, img': seq<Byte>, pos: nat, bytes: seq<Byte>) {
    && |img'| == |img|
    && At(img', pos, bytes)
    && SameOn(img, img', 0, pos)
    && SameOn(img, img', pos + |bytes|, |img|)
  }

  lemma WroteThen(img: seq<Byte>, img1: seq<Byte>, img2: seq<Byte>, pos: nat, a: seq<Byte>, b: seq<Byte>)
    requires Wrote(img, img1, pos, a) && Wrote(img1, img2, pos + |a|, b)
    ensures Wrote(img, img2, pos, a + b)
  {
    AtSame(img1, img2, 0, pos + |a|, pos, a);
    AtSplit(img2, pos, a, b);
  }

  /** A write elsewhere leaves `bytes` where they are. */
  lemma WroteElsewhere(img: seq<Byte>, img': seq<Byte>, pos: nat, w: seq<Byte>, at: int, bytes: seq<Byte>)
    requires Wrote(img, img', pos, w) && At(img, at, bytes)
    requires at + |bytes| <= pos || pos + |w| <= at
    ensures At(img', at, bytes)
  {
    if at + |bytes| <= pos {
      AtSame(img, img', 0, pos, at, bytes);
    } else {
      AtSame(img, img', pos + |w|, |img|, at, bytes);
    }
  }

  // ------------------------------------------------------------------
  // The parts of the invariant
  // ------------------------------------------------------------------

  ghost predicate SnapOk(img: seq<Byte>, snaps: seq<Snap>, k: int)
    requires 0 <= k < |snaps|
  {
    && At(img, snaps[k].pos, EncSnap(snaps[k]))
    && snaps[k].prev == (if k == 0 then 0 else snaps[k - 1].pos)
    && snaps[k].pos == (if k == 0 then RECORDS_START else SnapEnd(snaps[k - 1]))
  }

  function SnapEnd(s: Snap): nat {
    s.pos + |EncSnap(s)|
  }

  /** The records of `snaps` are in the image, one behind the other, each linked to the one before it. */
  ghost predicate SnapsOk(img: seq<Byte>, snaps: seq<Snap>) {
    forall k :: 0 <= k < |snaps| ==> SnapOk(img, snaps, k)
  }

  function SnapsEnd(snaps: seq<Snap>): nat {
    if snaps == [] then RECORDS_START else SnapEnd(snaps[|snaps| - 1])
  }

  function LastPos(snaps: seq<Snap>): nat {
    if snaps == [] then 0 else snaps[|snaps| - 1].pos
  }

  /** What a reader needs of an image to find `snaps` in it. */
  ghost predicate Holds(img: seq<Byte>, snaps: seq<Snap>) {
    && |img| <= MAX_FILE_SIZE
    && At(img, LAST_SNAPSHOT_AT, LE(LastPos(snaps), 8))
    && |snaps| < 0x1_0000_0000
    && At(img, SNAPSHOT_COUNT_AT, LE(|snaps|, 4))
    && SnapsOk(img, snaps)
  }

  /** The heap position is zero in a new file and set by the first snapshot or relocation. */
  ghost predicate HeaderOk(img: seq<Byte>, c: Counters) {
    && At(img, 0, U32Bytes(MAGIC_NUMBER))
    && At(img, VERSION_AT, U32Bytes(FORMAT_VERSION))
    && At(img, LAST_SNAPSHOT_AT, LE(c.lastSnapshotPos, 8))
    && At(img, SNAPSHOT_COUNT_AT, LE(c.snapshotCount, 4))
    && (c.snapshotCount > 0 ==> At(img, HEAP_POS_AT, LE(c.heapStart, 8)))
  }

  /** Header block, records, heap, free space, in this order and within the limits. */
  ghost predicate InOrder(size: nat, c: Counters) {
    && RECORDS_START <= c.writeOffset <= c.heapStart
    && c.heapStart + c.heapOffset <= size <= MAX_FILE_SIZE
  }

  ghost predicate HeapOk(img: seq<Byte>, c: Counters, heap: map<nat, Rec>) {
    forall off :: off in heap ==>
      off + |EncRec(heap[off])| <= c.heapOffset && At(img, c.heapStart + off, EncRec(heap[off]))
  }

  ghost predicate MapIs(entries: seq<Entry>, objects: map<U64, U64>) {
    && |entries| == |objects|
    && (forall i :: 0 <= i < |entries| ==>
        entries[i].pythonId in objects && objects[entries[i].pythonId] == entries[i].offset)
    && (forall id :: id in objects ==> exists i :: 0 <= i < |entries| && entries[i].pythonId == id)
  }

  ghost predicate SnapIs(s: Snap, d: SnapData) {
    s.timestamp == d.timestamp && s.stacks == d.stacks && s.truncated == d.truncated && MapIs(s.entries, d.objectMap)
  }

  ghost predicate CommittedOk(img: seq<Byte>, c: Counters, snaps: seq<Snap>, committed: seq<SnapData>) {
    && SnapsOk(img, snaps)
    && c.lastSnapshotPos == LastPos(snaps)
    && c.snapshotCount == |snaps| == |committed|
    && (forall k :: 0 <= k < |snaps| ==> SnapIs(snaps[k], committed[k]))
  }

  /** The stacktraces of the open snapshot start here. */
  function StacksStart(c: Counters): nat {
    c.snapshotPos + SNAPSHOT_HEADER_SIZE
  }

  function OpenStackBytes(info: StackInfo, frames: seq<Frame>): seq<Byte> {
    EncStackHeader(info, 0, 0) + info.threadName + Cat(EncFrame, frames)
  }

  /** The bytes behind the last committed snapshot: nothing, or a half-written one. */
  ghost predicate PendingOk(img: seq<Byte>, c: Counters, snaps: seq<Snap>, p: Pending) {
    match p
    case Idle =>
      !c.snapshotOpen && !c.stackOpen && c.frameCount == 0 && SnapsEnd(snaps) == c.writeOffset
    case Pending(ts, stacks, open) =>
      && c.snapshotOpen && RECORDS_START <= c.snapshotPos && SnapsEnd(snaps) == c.snapshotPos
      && c.stackCount == |stacks|
      && At(img, c.snapshotPos, EncSnapHeader(ts, LastPos(snaps), 0, 0, 0, 0))
      && At(img, StacksStart(c), Cat(EncStack, stacks))
      && match open {
           case NoStack =>
             !c.stackOpen && c.frameCount == 0 && c.writeOffset == StacksStart(c) + |Cat(EncStack, stacks)|
           case OpenStack(info, frames) =>
             && c.stackOpen && c.frameCount == |frames|
             && c.stackPos == StacksStart(c) + |Cat(EncStack, stacks)|
             && At(img, c.stackPos, OpenStackBytes(info, frames))
             && c.writeOffset == c.stackPos + |OpenStackBytes(info, frames)|
         }
  }

  datatype Part = OrderPart | HeaderPart | HeapPart | CommittedPart | PendingPart | TablesPart

  ghost predicate PartOk(part: Part, img: seq<Byte>, c: Counters, snaps: seq<Snap>, s: State) {
    match part
    case OrderPart => InOrder(|img|, c)
    case HeaderPart => HeaderOk(img, c)
    case HeapPart => c.heapOffset == s.heapEnd && HeapOk(img, c, s.heap)
    case CommittedPart => CommittedOk(img, c, snaps, s.committed)
    case PendingPart => PendingOk(img, c, snaps, s.pending)
    case TablesPart => TablesGood(s)
  }

  /** The invariant: every part of the layout is as the log says. */
  ghost predicate Inv(img: seq<Byte>, c: Counters, snaps: seq<Snap>, s: State) {
    forall part: Part :: PartOk(part, img, c, snaps, s)
  }

  ghost predicate AllParts(img: seq<Byte>, c: Counters, snaps: seq<Snap>, s: State) {
    && InOrder(|img|, c)
    && HeaderOk(img, c)
    && c.heapOffset == s.heapEnd
    && HeapOk(img, c, s.heap)
    && CommittedOk(img, c, snaps, s.committed)
    && PendingOk(img, c, snaps, s.pending)
    && TablesGood(s)
  }

  /** The solver looks into the invariant only where this is called. */
  lemma Parts(img: seq<Byte>, c: Counters, snaps: seq<Snap>, s: State)
    ensures Inv(img, c, snaps, s) <==> AllParts(img, c, snaps, s)
  {
    hide InOrder, HeaderOk, HeapOk, CommittedOk, PendingOk, TablesGood;
    if Inv(img, c, snaps, s) {
      assert PartOk(OrderPart, img, c, snaps, s);
      assert PartOk(HeaderPart, img, c, snaps, s);
      assert PartOk(HeapPart, img, c, snaps, s);
      assert PartOk(CommittedPart, img, c, snaps, s);
      assert PartOk(PendingPart, img, c, snaps, s);
      assert PartOk(TablesPart, img, c, snaps, s);
    }
  }

  // ------------------------------------------------------------------
  // Framing: each part depends on its own region only
  // ------------------------------------------------------------------

  lemma {:induction false} SnapsInOrder(img: seq<Byte>, snaps: seq<Snap>, i: nat, j: nat)
    requires SnapsOk(img, snaps) && i <= j < |snaps|
    ensures RECORDS_START <= snaps[i].pos
    ensures snaps[i].pos <= snaps[j].pos && SnapEnd(snaps[i]) <= SnapEnd(snaps[j])
    ensures i < j ==> SnapEnd(snaps[i]) <= snaps[j].pos
    decreases j
  {
    hide At, EncSnap;
    assert SnapOk(img, snaps, j);
    if i < j {
      SnapsInOrder(img, snaps, i, j - 1);
    } else if 0 < i {
      SnapsInOrder(img, snaps, i - 1, i - 1);
    }
  }

  lemma SnapsFrame(img: seq<Byte>, img': seq<Byte>, snaps: seq<Snap>, hi: int)
    requires SnapsOk(img, snaps) && SameOn(img, img', RECORDS_START, hi) && SnapsEnd(snaps) <= hi
    ensures SnapsOk(img', snaps)
  {
    hide At, SameOn, EncSnap;
    forall k | 0 <= k < |snaps| ensures SnapOk(img', snaps, k) {
      assert SnapOk(img, snaps, k);
      SnapsInOrder(img, snaps, k, |snaps| - 1);
      AtSame(img, img', RECORDS_START, hi, snaps[k].pos, EncSnap(snaps[k]));
    }
  }

  lemma CommittedFrame(img: seq<Byte>, img': seq<Byte>, c: Counters, snaps: seq<Snap>, committed: seq<SnapData>,
                       hi: int)
    requires CommittedOk(img, c, snaps, committed) && SameOn(img, img', RECORDS_START, hi) && SnapsEnd(snaps) <= hi
    ensures CommittedOk(img', c, snaps, committed)
  {
    SnapsFrame(img, img', snaps, hi);
  }

  lemma PendingFrame(img: seq<Byte>, img': seq<Byte>, c: Counters, snaps: seq<Snap>, p: Pending)
    requires PendingOk(img, c, snaps, p) && SameOn(img, img', RECORDS_START, c.writeOffset)
    ensures PendingOk(img', c, snaps, p)
  {
    hide At, SameOn, EncSnapHeader, OpenStackBytes, SnapEnd;
    if p.Pending? {
      AtSame(img, img', RECORDS_START, c.writeOffset, c.snapshotPos,
             EncSnapHeader(p.timestamp, LastPos(snaps), 0, 0, 0, 0));
      AtSame(img, img', RECORDS_START, c.writeOffset, StacksStart(c), Cat(EncStack, p.stacks));
      if p.open.OpenStack? {
        AtSame(img, img', RECORDS_START, c.writeOffset, c.stackPos, OpenStackBytes(p.open.info, p.open.frames));
      }
    }
  }

  lemma HeaderFrame(img: seq<Byte>, img': seq<Byte>, c: Counters)
    requires HeaderOk(img, c) && SameOn(img, img', 0, FILE_HEADER_SIZE)
    ensures HeaderOk(img', c)
  {
    hide At, SameOn, LE;
    AtSame(img, img', 0, FILE_HEADER_SIZE, 0, U32Bytes(MAGIC_NUMBER));
    AtSame(img, img', 0, FILE_HEADER_SIZE, VERSION_AT, U32Bytes(FORMAT_VERSION));
    AtSame(img, img', 0, FILE_HEADER_SIZE, LAST_SNAPSHOT_AT, LE(c.lastSnapshotPos, 8));
    AtSame(img, img', 0, FILE_HEADER_SIZE, SNAPSHOT_COUNT_AT, LE(c.snapshotCount, 4));
    if c.snapshotCount > 0 {
      AtSame(img, img', 0, FILE_HEADER_SIZE, HEAP_POS_AT, LE(c.heapStart, 8));
    }
  }

  lemma HeapFrame(img: seq<Byte>, img': seq<Byte>, c: Counters, heap: map<nat, Rec>)
    requires HeapOk(img, c, heap) && SameOn(img, img', c.heapStart, c.heapStart + c.heapOffset)
    ensures HeapOk(img', c, heap)
  {
    hide At, SameOn, EncRec;
    forall off | off in heap ensures At(img', c.heapStart + off, EncRec(heap[off])) {
      AtSame(img, img', c.heapStart, c.heapStart + c.heapOffset, c.heapStart + off, EncRec(heap[off]));
    }
  }

  /** Restricting agreement to a smaller range. */
  lemma Narrow(img: seq<Byte>, img': seq<Byte>, lo: int, hi: int, lo': int, hi': int)
    requires SameOn(img, img', lo, hi) && lo <= lo' <= hi' <= hi
    ensures SameOn(img, img', lo', hi')
  {
  }

  /** Growing the file keeps everything. */
  lemma ExtendKeeps(img: seq<Byte>, img': seq<Byte>, c: Counters, snaps: seq<Snap>, s: State)
    requires Inv(img, c, snaps, s) && |img| <= |img'| <= MAX_FILE_SIZE && SameOn(img, img', 0, |img|)
    ensures Inv(img', c, snaps, s)
  {
    hide At, SameOn, HeaderOk, HeapOk, CommittedOk, PendingOk, TablesGood;
    Parts(img, c, snaps, s);
    InvBounds(img, c, snaps, s);
    Narrow(img, img', 0, |img|, 0, FILE_HEADER_SIZE);
    HeaderFrame(img, img', c);
    Narrow(img, img', 0, |img|, RECORDS_START, c.writeOffset);
    CommittedFrame(img, img', c, snaps, s.committed, c.writeOffset);
    PendingFrame(img, img', c, snaps, s.pending);
    Narrow(img, img', 0, |img|, c.heapStart, c.heapStart + c.heapOffset);
    HeapFrame(img, img', c, s.heap);
    Parts(img', c, snaps, s);
  }

  lemma InvOrder(img: seq<Byte>, c: Counters, snaps: seq<Snap>, s: State)
    requires Inv(img, c, snaps, s)
    ensures InOrder(|img|, c)
  {
    Parts(img, c, snaps, s);
  }

  /** The flags and counters of the writer say what is open. */
  lemma InvFlags(img: seq<Byte>, c: Counters, snaps: seq<Snap>, s: State)
    requires Inv(img, c, snaps, s)
    ensures c.snapshotOpen <==> s.pending.Pending?
    ensures c.stackOpen <==> HasOpenStack(s)
    ensures !c.stackOpen ==> c.frameCount == 0
    ensures s.pending.Pending? ==> c.stackCount == |s.pending.stacks|
    ensures HasOpenStack(s) ==> c.frameCount == |s.pending.open.frames|
    ensures c.lastSnapshotPos == LastPos(snaps) && c.heapOffset == s.heapEnd
    ensures FILE_HEADER_SIZE <= RECORDS_START <= |img|
  {
    hide At, HeaderOk, HeapOk, TablesGood, SnapsOk, SnapIs;
    Parts(img, c, snaps, s);
  }

  lemma InvBounds(img: seq<Byte>, c: Counters, snaps: seq<Snap>, s: State)
    requires Inv(img, c, snaps, s)
    ensures SnapsEnd(snaps) <= c.writeOffset
    ensures s.pending.Pending? ==>
      RECORDS_START <= SnapsEnd(snaps) <= c.snapshotPos && c.snapshotPos + SNAPSHOT_HEADER_SIZE <= c.writeOffset
    ensures HasOpenStack(s) ==> c.stackPos + STACKTRACE_HEADER_SIZE <= c.writeOffset && StacksStart(c) <= c.stackPos
    ensures RECORDS_START <= SnapsEnd(snaps)
    ensures LastPos(snaps) <= c.writeOffset
  {
    hide At;
    Parts(img, c, snaps, s);
    if snaps != [] {
      SnapsInOrder(img, snaps, |snaps| - 1, |snaps| - 1);
  
  }
  }

  /** Sliding the heap forward and telling the header keeps everything: heap offsets are relative. */
  lemma RelocateKeeps(img: seq<Byte>, moved: seq<Byte>, img': seq<Byte>, c: Counters, heapStart: nat, snaps: seq<Snap>,
                      s: State)
    requires Inv(img, c, snaps, s)
    requires c.heapStart <= heapStart && heapStart + c.heapOffset <= |img|
    requires |moved| == |img| && SameOn(img, moved, 0, c.heapStart)
    requires moved[heapStart..heapStart + c.heapOffset] == img[c.heapStart..c.heapStart + c.heapOffset]
    requires Wrote(moved, img', LAST_SNAPSHOT_AT, HeaderUpdate(c.lastSnapshotPos, c.snapshotCount, heapStart))
    ensures Inv(img', c.(heapStart := heapStart), snaps, s)
  {
    hide At, LE, HeaderOk, CommittedOk, PendingOk, TablesGood, Wrote, SameOn, HeaderUpdate;
    Parts(img, c, snaps, s);
    var c' := c.(heapStart := heapStart);
    InvBounds(img, c, snaps, s);
    HeaderUpdated(img, moved, img', c, c.lastSnapshotPos, c.snapshotCount, heapStart);
    RecordsBehindHeader(img, moved, img', c, c.lastSnapshotPos, c.snapshotCount, heapStart);
    CommittedFrame(img, img', c, snaps, s.committed, c.writeOffset);
    CommittedCounters(img', c, c', snaps, s.committed);
    PendingFrame(img, img', c, snaps, s.pending);
    PendingCounters(img', c, c', snaps, s.pending);
    WroteBehindHeader(moved, img', c.lastSnapshotPos, c.snapshotCount, heapStart);
    HeapMoved(img, moved, img', c, heapStart, s.heap);
    Parts(img', c.(heapStart := heapStart), snaps, s);
  }

  lemma WroteBehindHeader(moved: seq<Byte>, img': seq<Byte>, last: nat, count: nat, heapStart: nat)
    requires Wrote(moved, img', LAST_SNAPSHOT_AT, HeaderUpdate(last, count, heapStart)) && RECORDS_START <= |moved|
    ensures |img'| == |moved| && SameOn(moved, img', RECORDS_START, |moved|)
  {
  }

  lemma RecordsBehindHeader(img: seq<Byte>, moved: seq<Byte>, img': seq<Byte>, c: Counters, last: nat, count: nat,
                            heapStart: nat)
    requires SameOn(img, moved, 0, c.heapStart) && RECORDS_START <= c.writeOffset <= c.heapStart
    requires Wrote(moved, img', LAST_SNAPSHOT_AT, HeaderUpdate(last, count, heapStart))
    ensures SameOn(img, img', RECORDS_START, c.writeOffset)
  {
  }

  /** The three header fields `updateHeader` rewrites are neighbours. */
  function HeaderUpdate(last: nat, count: nat, heapStart: nat): (r: seq<Byte>)
    ensures |r| == 20
  {
    LE(last, 8) + LE(count, 4) + LE(heapStart, 8)
  }

  lemma HeaderUpdated(img: seq<Byte>, moved: seq<Byte>, img': seq<Byte>, c: Counters, last: nat, count: nat,
                      heapStart: nat)
    requires HeaderOk(img, c) && RECORDS_START <= c.heapStart && SameOn(img, moved, 0, c.heapStart)
    requires Wrote(moved, img', LAST_SNAPSHOT_AT, HeaderUpdate(last, count, heapStart))
    ensures HeaderOk(img', c.(lastSnapshotPos := last, snapshotCount := count, heapStart := heapStart))
  {
    hide At, SameOn, LE;
    AtSame(img, moved, 0, c.heapStart, 0, U32Bytes(MAGIC_NUMBER));
    AtSame(img, moved, 0, c.heapStart, VERSION_AT, U32Bytes(FORMAT_VERSION));
    var w := HeaderUpdate(last, count, heapStart);
    WroteElsewhere(moved, img', LAST_SNAPSHOT_AT, w, 0, U32Bytes(MAGIC_NUMBER));
    WroteElsewhere(moved, img', LAST_SNAPSHOT_AT, w, VERSION_AT, U32Bytes(FORMAT_VERSION));
    AtSplit(img', LAST_SNAPSHOT_AT, LE(last, 8) + LE(count, 4), LE(heapStart, 8));
    AtSplit(img', LAST_SNAPSHOT_AT, LE(last, 8), LE(count, 4));
  }

  lemma HeapMoved(img: seq<Byte>, moved: seq<Byte>, img': seq<Byte>, c: Counters, heapStart: nat, heap: map<nat, Rec>)
    requires HeapOk(img, c, heap) && c.heapStart + c.heapOffset <= |img|
    requires RECORDS_START <= heapStart && heapStart + c.heapOffset <= |img| == |moved|
    requires moved[heapStart..heapStart + c.heapOffset] == img[c.heapStart..c.heapStart + c.heapOffset]
    requires |img'| == |moved| && SameOn(moved, img', RECORDS_START, |moved|)
    ensures HeapOk(img', c.(heapStart := heapStart), heap)
  {
    hide EncRec;
    forall off | off in heap ensures At(img', heapStart + off, EncRec(heap[off])) {
      var r := EncRec(heap[off]);
      assert At(img, c.heapStart + off, r);
      var from, to := img[c.heapStart..c.heapStart + c.heapOffset], moved[heapStart..heapStart + c.heapOffset];
      forall k | 0 <= k < |r| ensures img'[heapStart + off + k] == r[k] {
        assert r[k] == img[c.heapStart + off..c.heapStart + off + |r|][k] == from[off + k] == to[off + k] ==
          moved[heapStart + off + k];
      }
    }
  }

  /** The committed part reads only two counters. */
  lemma CommittedCounters(img: seq<Byte>, c: Counters, c': Counters, snaps: seq<Snap>, committed: seq<SnapData>)
    requires CommittedOk(img, c, snaps, committed)
    requires c'.lastSnapshotPos == c.lastSnapshotPos && c'.snapshotCount == c.snapshotCount
    ensures CommittedOk(img, c', snaps, committed)
  {
  }

  /** The open part does not read where the heap is or ends. */
  lemma PendingCounters(img: seq<Byte>, c: Counters, c': Counters, snaps: seq<Snap>, p: Pending)
    requires PendingOk(img, c, snaps, p) && c' == c.(heapStart := c'.heapStart, heapOffset := c'.heapOffset)
    ensures PendingOk(img, c', snaps, p)
  {
    hide At, EncSnapHeader, OpenStackBytes, SnapEnd;
  }

  /** Every record takes room, so an image of this size cannot hold 2^32 of them. */
  lemma {:induction false} SnapsFit(img: seq<Byte>, snaps: seq<Snap>, n: nat)
    requires SnapsOk(img, snaps) && 0 < n <= |snaps|
    ensures SnapEnd(snaps[n - 1]) >= RECORDS_START + SNAPSHOT_HEADER_SIZE * n
  {
    hide At;
    assert SnapOk(img, snaps, n - 1);
    if n > 1 {
      SnapsFit(img, snaps, n - 1);
    }
  }

  /** The invariant of the writer is more than a reader needs. */
  lemma InvHolds(img: seq<Byte>, c: Counters, snaps: seq<Snap>, s: State)
    requires Inv(img, c, snaps, s)
    ensures Holds(img, snaps)
  {
    hide At, LE, SnapsOk, HeapOk, PendingOk, TablesGood, SnapIs, SnapsEnd;
    Parts(img, c, snaps, s);
    InvBounds(img, c, snaps, s);
    if snaps != [] {
      SnapsFit(img, snaps, |snaps|);
      SnapsEndIs(snaps);
    }
  }

  lemma SnapsEndIs(snaps: seq<Snap>)
    requires snaps != []
    ensures SnapsEnd(snaps) == SnapEnd(snaps[|snaps| - 1])
  {
  }

  /** Links point strictly backwards, and no record is at 0. */
  lemma LinksGoBack(img: seq<Byte>, snaps: seq<Snap>, k: nat)
    requires Holds(img, snaps) && k < |snaps|
    ensures 0 < snaps[k].pos && snaps[k].prev < snaps[k].pos
    ensures snaps[k].prev == if k == 0 then 0 else snaps[k - 1].pos
    ensures At(img, snaps[k].pos, EncSnap(snaps[k]))
  {
    hide At;
    assert SnapOk(img, snaps, k);
    SnapsInOrder(img, snaps, k, k);
    if k > 0 {
      SnapsInOrder(img, snaps, k - 1, k);
    }
  }
}
