/**
 * How much room a run needs: where the records end is a function of the log, and no call runs out of
 * space while the file may still grow and what has been asked for stays below the limit.
 */
module Space {
  import opened Bytes
  import opened Format
  import opened Log
  import opened Layout
  import opened Writing

  // ------------------------------------------------------------------
  // Where the records end
  // ------------------------------------------------------------------

  function OpenSize(open: OpenStack): nat {
    match open
    case NoStack => 0
    case OpenStack(info, frames) => STACKTRACE_HEADER_SIZE + |info.threadName| + |Cat(EncFrame, frames)|
  }

  function PendingSize(p: Pending): nat {
    match p
    case Idle => 0
    case Pending(_, stacks, open) => SNAPSHOT_HEADER_SIZE + |Cat(EncStack, stacks)| + OpenSize(open)
  }

  function SnapSize(d: SnapData): nat {
    SNAPSHOT_HEADER_SIZE + |Cat(EncStack, d.stacks)| + |d.objectMap| * MAP_ENTRY_SIZE
  }

  function LogSize(committed: seq<SnapData>): nat {
    if committed == [] then 0 else LogSize(committed[..|committed| - 1]) + SnapSize(committed[|committed| - 1])
  }

  /** Where the next byte of a record goes. */
  function RecordsEnd(s: State): nat {
    RECORDS_START + LogSize(s.committed) + PendingSize(s.pending)
  }

  lemma SnapTakes(s: Snap, d: SnapData)
    requires SnapIs(s, d)
    ensures |EncSnap(s)| == SnapSize(d)
  {
    CatFixed(EncEntry, s.entries, MAP_ENTRY_SIZE);
  }

  lemma {:induction false} SnapsTake(img: seq<Byte>, snaps: seq<Snap>, committed: seq<SnapData>)
    requires SnapsOk(img, snaps) && |snaps| == |committed| && forall k :: 0 <= k < |snaps| ==>
      SnapIs(snaps[k], committed[k])
    ensures SnapsEnd(snaps) == RECORDS_START + LogSize(committed)
  {
    hide At, SnapIs, EncSnap, SnapSize;
    if snaps != [] {
      var n := |snaps| - 1;
      forall k | 0 <= k < n ensures SnapOk(img, snaps[..n], k) {
        assert SnapOk(img, snaps, k);
      }
      SnapsTake(img, snaps[..n], committed[..n]);
      assert SnapOk(img, snaps, n);
      SnapTakes(snaps[n], committed[n]);
    }
  }

  /** The records are dense: whatever was discarded or rolled back, the writer stands where the log ends. */
  lemma WritesAtEnd(img: seq<Byte>, c: Counters, snaps: seq<Snap>, s: State)
    requires Inv(img, c, snaps, s)
    ensures c.writeOffset == RecordsEnd(s) && c.heapOffset == s.heapEnd
  {
    hide At, HeaderOk, HeapOk, TablesGood, SnapIs, SnapsOk, SnapsEnd, EncSnapHeader, Cat;
    Parts(img, c, snaps, s);
    SnapsTake(img, snaps, s.committed);
  }

  // ------------------------------------------------------------------
  // What a call adds
  // ------------------------------------------------------------------

  /** Records a call leads to; an entry of the object map is paid for when it is registered. */
  function RecordCost(op: Op): nat {
    match op
    case BeginSnapshot(_) => SNAPSHOT_HEADER_SIZE
    case BeginStacktrace(info) => STACKTRACE_HEADER_SIZE + |info.threadName|
    case WriteFrame(f) => |EncFrame(f)|
    case Register(_, _) => MAP_ENTRY_SIZE
    case RegisterBoth(_, _, _) => MAP_ENTRY_SIZE
    case _ => 0
  }

  function HeapCost(op: Op): nat {
    if op.Write? then |EncRec(op.rec)| else 0
  }

  /** The records of the log, with the object map still to be written. */
  function Owed(s: State): nat {
    RecordsEnd(s) + |s.objects| * MAP_ENTRY_SIZE
  }

  lemma CatOne<T>(enc: T -> seq<Byte>, s: seq<T>, x: T)
    ensures |Cat(enc, s + [x])| == |Cat(enc, s)| + |enc(x)|
  {
    assert (s + [x])[..|s|] == s;
  }

  lemma StackTakes(st: Stack)
    ensures |EncStack(st)| == OpenSize(OpenStack(st.info, st.frames))
  {
  }

  lemma NothingTakes()
    ensures Cat(EncStack, []) == [] && Cat(EncFrame, []) == []
  {
  }

  lemma OneMoreEntry(m: map<U64, U64>, id: U64, offset: U64)
    ensures |m[id := offset]| <= |m| + 1
  {
    var m' := m[id := offset];
    assert m'.Keys == m.Keys + {id} && |m'| == |m'.Keys| && |m| == |m.Keys|;
  }

  lemma StepCost(s: State, op: Op, full: bool)
    requires Allowed(s, op)
    ensures Owed(Step(s, op, full).0) <= Owed(s) + RecordCost(op)
    ensures Step(s, op, full).0.heapEnd <= s.heapEnd + HeapCost(op)
    ensures RecordsEnd(s) + RecordBytes(s, op) <= Owed(s) + RecordCost(op) || Refusal(s, op).Failed?
  {
    hide EncFrame, EncStack, EncRec, Cat;
    if Refusal(s, op).Done? && !full {
      NothingTakes();
      if op.BeginStacktrace? || op.WriteFrame? || op.RollbackFrame? || op.EndStacktrace? || op.DiscardStacktrace? {
        StackCallCost(s, op);
      } else {
        SnapshotCallCost(s, op);
      }
    }
  }

  lemma StackCallCost(s: State, op: Op)
    requires Allowed(s, op) && Refusal(s, op).Done?
    requires op.BeginStacktrace? || op.WriteFrame? || op.RollbackFrame? || op.EndStacktrace? || op.DiscardStacktrace?
    ensures Owed(Apply(s, op)) <= Owed(s) + RecordCost(op)
  {
    hide EncFrame, EncStack, Cat, LogSize;
    NothingTakes();
    match op
    case WriteFrame(f) => CatOne(EncFrame, s.pending.open.frames, f);
    case RollbackFrame =>
      var frames := s.pending.open.frames;
      var n := |frames| - 1;
      CatOne(EncFrame, frames[..n], frames[n]);
      assert frames[..n] + [frames[n]] == frames;
    case EndStacktrace(t, d) =>
      var stack := Stack(s.pending.open.info, t, d, s.pending.open.frames);
      CatOne(EncStack, s.pending.stacks, stack);
      StackTakes(stack);
    case _ =>
  }

  lemma SnapshotCallCost(s: State, op: Op)
    requires Allowed(s, op) && Refusal(s, op).Done?
    requires op.BeginSnapshot? || op.EndSnapshot? || op.DiscardSnapshot? || op.Write? || op.Register?
      || op.RegisterBoth?
    ensures Owed(Apply(s, op)) <= Owed(s) + RecordCost(op)
  {
    hide EncRec, Cat;
    NothingTakes();
    match op
    case EndSnapshot(t) =>
      var snap := SnapData(s.pending.timestamp, s.pending.stacks, s.objects, t);
      assert (s.committed + [snap])[..|s.committed|] == s.committed;
    case Register(id, offset) => OneMoreEntry(s.objects, id, offset);
    case RegisterBoth(id, offset, _) => OneMoreEntry(s.objects, id, offset);
    case _ =>
  }

  // ------------------------------------------------------------------
  // What a run adds
  // ------------------------------------------------------------------

  function RecordCosts(ops: seq<Op>): nat {
    if ops == [] then 0 else RecordCosts(ops[..|ops| - 1]) + RecordCost(ops[|ops| - 1])
  }

  function HeapCosts(ops: seq<Op>): nat {
    if ops == [] then 0 else HeapCosts(ops[..|ops| - 1]) + HeapCost(ops[|ops| - 1])
  }

  /** No run of these calls pushes the start of the heap beyond this: twice what the records could take. */
  function HeapStartLimit(heapStart: nat, s: State, ops: seq<Op>): nat {
    var records := Owed(s) + RecordCosts(ops);
    if heapStart < 2 * records then 2 * records else heapStart
  }

  /** A file of this size is large enough for a run of these calls. */
  function Demand(heapStart: nat, s: State, ops: seq<Op>): nat {
    HeapStartLimit(heapStart, s, ops) + s.heapEnd + HeapCosts(ops)
  }

  lemma CostsOfOneMore(ops: seq<Op>, op: Op)
    ensures RecordCosts(ops + [op]) == RecordCosts(ops) + RecordCost(op)
    ensures HeapCosts(ops + [op]) == HeapCosts(ops) + HeapCost(op)
  {
    assert (ops + [op])[..|ops|] == ops;
  }

  /** How far a run that started at `start` has come: `s` is the log and `heapStart` the start of the heap by now. */
  ghost predicate WithinDemand(heapStart0: nat, start: State, ops: seq<Op>, heapStart: nat, s: State) {
    && Owed(s) <= Owed(start) + RecordCosts(ops) && s.heapEnd <= start.heapEnd + HeapCosts(ops)
    && heapStart <= HeapStartLimit(heapStart0, start, ops)
  }

  /** The next call asks for no more than the demand of the run. */
  lemma NextFits(heapStart0: nat, start: State, ops: seq<Op>, img: seq<Byte>, c: Counters, snaps: seq<Snap>, s: State,
                 op: Op)
    requires Inv(img, c, snaps, s) && Allowed(s, op) && Refusal(s, op).Done?
    requires WithinDemand(heapStart0, start, ops, c.heapStart, s)
    ensures Needed(c, s, op) <= Demand(heapStart0, start, ops + [op])
  {
    hide Inv, RecordsEnd, RecordBytes, RecordCost, Refusal, EncRec;
    WritesAtEnd(img, c, snaps, s);
    StepCost(s, op, false);
    CostsOfOneMore(ops, op);
    HeapStartBound(c.heapStart, c.writeOffset + RecordBytes(s, op));
  }

  lemma NextWithin(heapStart0: nat, start: State, ops: seq<Op>, img: seq<Byte>, c: Counters, snaps: seq<Snap>, s: State,
                   op: Op, full: bool, heapStart': nat)
    requires Inv(img, c, snaps, s) && Allowed(s, op)
    requires WithinDemand(heapStart0, start, ops, c.heapStart, s)
    requires heapStart' == c.heapStart || heapStart' < 2 * (c.writeOffset + RecordBytes(s, op))
    requires Refusal(s, op).Failed? ==> heapStart' == c.heapStart
    ensures WithinDemand(heapStart0, start, ops + [op], heapStart', Step(s, op, full).0)
  {
    hide Inv, RecordsEnd, RecordBytes, RecordCost, Refusal, Step, HeapCost;
    WritesAtEnd(img, c, snaps, s);
    StepCost(s, op, full);
    CostsOfOneMore(ops, op);
  }
}
