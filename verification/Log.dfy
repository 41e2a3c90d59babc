/**
 * What the writer means, without bytes: a log of committed snapshots, at most one snapshot being
 * written, an append-only heap of records, and the two object tables.
 */
module Log {
  import opened Bytes
  import opened Format

  /** A committed snapshot as its caller described it. */
  datatype SnapData = SnapData(timestamp: U64, stacks: seq<Stack>, objectMap: map<U64, U64>, truncated: bool)

  datatype OpenStack = NoStack | OpenStack(info: StackInfo, frames: seq<Frame>)

  datatype Pending = Idle | Pending(timestamp: U64, stacks: seq<Stack>, open: OpenStack)

  datatype CacheEntry = CacheEntry(offset: U64, identityHash: U64)

  /** `objects` is the object map of the snapshot being written; `cache` outlives snapshots. */
  datatype State = State(
    committed: seq<SnapData>,
    pending: Pending,
    heap: map<nat, Rec>,
    heapEnd: nat,
    objects: map<U64, U64>,
    cache: map<U64, CacheEntry>)

  const Empty := State([], Idle, map[], 0, map[], map[])

  datatype Error = NotInitialized | AlreadyInitialized | SnapshotOpen | NoSnapshot | StackOpen | NoStackOpen
    | OutOfSpace

  datatype Outcome = Done | Failed(error: Error)

  /** The calls of a capture. `Write` appends a heap record, `Register*` fill the tables. */
  datatype Op =
    | BeginSnapshot(timestamp: U64)
    | BeginStacktrace(info: StackInfo)
    | WriteFrame(frame: Frame)
    | RollbackFrame
    | EndStacktrace(truncated: bool, depthTruncated: bool)
    | DiscardStacktrace
    | EndSnapshot(snapshotTruncated: bool)
    | DiscardSnapshot
    | Write(rec: Rec)
    | Register(pythonId: U64, offset: U64)
    | RegisterBoth(pythonId: U64, offset: U64, identityHash: U64)

  /** Why the writer refuses a call, space aside. */
  function Refusal(s: State, op: Op): Outcome {
    match op
    case BeginSnapshot(_) => if s.pending.Pending? then Failed(SnapshotOpen) else Done
    case BeginStacktrace(_) =>
      if s.pending.Idle? then Failed(NoSnapshot) else if s.pending.open.OpenStack? then Failed(StackOpen) else Done
    case WriteFrame(_) =>
      if s.pending.Idle? then Failed(NoSnapshot) else if s.pending.open.NoStack? then Failed(NoStackOpen) else Done
    case EndStacktrace(_, _) =>
      if s.pending.Idle? then Failed(NoSnapshot) else if s.pending.open.NoStack? then Failed(NoStackOpen) else Done
    case EndSnapshot(_) =>
      if s.pending.Idle? then Failed(NoSnapshot) else if s.pending.open.OpenStack? then Failed(StackOpen) else Done
    case _ => Done
  }

  predicate HasOpenStack(s: State) {
    s.pending.Pending? && s.pending.open.OpenStack?
  }

  /** What only the capture layer promises: rollbacks follow a frame, registered offsets come from writes. */
  predicate Allowed(s: State, op: Op) {
    match op
    case RollbackFrame => HasOpenStack(s) && s.pending.open.frames != []
    case Register(_, offset) => GoodOffset(s, offset)
    case RegisterBoth(_, offset, _) => GoodOffset(s, offset)
    case _ => true
  }

  predicate GoodOffset(s: State, offset: U64) {
    IsMagicOffset(offset) || offset in s.heap
  }

  /** The state after a call that neither ran out of space nor was refused. */
  function Apply(s: State, op: Op): State
    requires Allowed(s, op) && Refusal(s, op).Done?
  {
    match op
    case BeginSnapshot(ts) => s.(pending := Pending(ts, [], NoStack))
    case BeginStacktrace(info) => s.(pending := s.pending.(open := OpenStack(SelfLinked(info), [])))
    case WriteFrame(f) => s.(pending := s.pending.(open := s.pending.open.(frames := s.pending.open.frames + [f])))
    case RollbackFrame =>
      var frames := s.pending.open.frames;
      s.(pending := s.pending.(open := s.pending.open.(frames := frames[..|frames| - 1])))
    case EndStacktrace(t, d) =>
      var stack := Stack(s.pending.open.info, t, d, s.pending.open.frames);
      s.(pending := s.pending.(stacks := s.pending.stacks + [stack], open := NoStack))
    case DiscardStacktrace => if HasOpenStack(s) then s.(pending := s.pending.(open := NoStack)) else s
    case EndSnapshot(t) =>
      var snap := SnapData(s.pending.timestamp, s.pending.stacks, s.objects, t);
      s.(committed := s.committed + [snap], pending := Idle, objects := map[])
    case DiscardSnapshot => if s.pending.Pending? then s.(pending := Idle, objects := map[]) else s
    case Write(rec) => s.(heap := s.heap[s.heapEnd := rec], heapEnd := s.heapEnd + |EncRec(rec)|)
    case Register(id, offset) => s.(objects := s.objects[id := offset])
    case RegisterBoth(id, offset, h) =>
      s.(objects := s.objects[id := offset], cache := s.cache[id := CacheEntry(offset, h)])
  }

  /** Cause and context ids of UINT64_MAX stand for "none", which the file spells as a self-reference. */
  function SelfLinked(i: StackInfo): StackInfo {
    var none := 0xFFFF_FFFF_FFFF_FFFF;
    i.(causeId := if i.causeId == none then i.id else i.causeId,
       contextId := if i.contextId == none then i.id else i.contextId)
  }

  /** A refused call and one that runs out of space change nothing. */
  function Step(s: State, op: Op, outOfSpace: bool): (State, Outcome)
    requires Allowed(s, op)
  {
    if Refusal(s, op).Failed? then (s, Refusal(s, op))
    else if outOfSpace then (s, Failed(OutOfSpace))
    else (Apply(s, op), Done)
  }

  /** The calls that need room in the file, and so are the only ones that can run out of it. */
  predicate NeedsSpace(op: Op) {
    op.BeginSnapshot? || op.BeginStacktrace? || op.WriteFrame? || op.EndSnapshot? || op.Write?
  }

  // ------------------------------------------------------------------
  // Runs
  // ------------------------------------------------------------------

  /** A run: calls together with whether the file had room for each. */
  ghost predicate IsRun(s: State, ops: seq<Op>, full: seq<bool>)
    decreases |ops|
  {
    && |ops| == |full|
    && (ops != [] ==>
          && Allowed(s, ops[0])
          && (full[0] ==> NeedsSpace(ops[0]))
          && IsRun(Step(s, ops[0], full[0]).0, ops[1..], full[1..]))
  }

  ghost function RunFrom(s: State, ops: seq<Op>, full: seq<bool>): State
    requires IsRun(s, ops, full)
    decreases |ops|
  {
    if ops == [] then s else RunFrom(Step(s, ops[0], full[0]).0, ops[1..], full[1..])
  }

  /** Every offset of either table is magic or starts a complete heap record. */
  ghost predicate TablesGood(s: State) {
    && (forall id :: id in s.objects ==> GoodOffset(s, s.objects[id]))
    && (forall id :: id in s.cache ==> GoodOffset(s, s.cache[id].offset))
    && (forall off :: off in s.heap ==> off + |EncRec(s.heap[off])| <= s.heapEnd)
    && (forall k, id :: 0 <= k < |s.committed| && id in s.committed[k].objectMap ==>
        GoodOffset(s, s.committed[k].objectMap[id]))
  }

  lemma StepKeepsTables(s: State, op: Op, full: bool)
    requires Allowed(s, op) && TablesGood(s)
    ensures TablesGood(Step(s, op, full).0)
    ensures forall off :: off in s.heap ==>
      off in Step(s, op, full).0.heap && Step(s, op, full).0.heap[off] == s.heap[off]
  {
    hide EncRec;
    if Refusal(s, op).Done? && !full {
      if op.Write? {
        WriteKeepsTables(s, op.rec);
      } else {
        CallKeepsTables(s, op);
      }
    }
  }

  lemma RecordNotEmpty(rec: Rec)
    ensures |EncRec(rec)| > 0
  {
  }

  lemma WriteKeepsTables(s: State, rec: Rec)
    requires TablesGood(s)
    ensures TablesGood(Apply(s, Write(rec))) && s.heapEnd !in s.heap
  {
    hide EncRec;
    var t := Apply(s, Write(rec));
    forall off | off in s.heap ensures off < s.heapEnd {
      RecordNotEmpty(s.heap[off]);
    }
    assert forall off :: GoodOffset(s, off) ==> GoodOffset(t, off);
  }

  lemma CallKeepsTables(s: State, op: Op)
    requires Allowed(s, op) && Refusal(s, op).Done? && TablesGood(s) && !op.Write?
    ensures TablesGood(Apply(s, op)) && Apply(s, op).heap == s.heap
  {
    hide EncRec;
    var t := Apply(s, op);
    assert forall off :: GoodOffset(s, off) ==> GoodOffset(t, off);
    forall k, id | 0 <= k < |t.committed| && id in t.committed[k].objectMap
      ensures GoodOffset(t, t.committed[k].objectMap[id])
    {
      if k < |s.committed| {
        assert t.committed[k] == s.committed[k];
      }
    }
  }

  /** Nothing ever leaves the log, and no heap record ever changes. */
  lemma {:induction false} RunExtends(s: State, ops: seq<Op>, full: seq<bool>)
    requires IsRun(s, ops, full) && TablesGood(s)
    ensures TablesGood(RunFrom(s, ops, full))
    ensures s.committed <= RunFrom(s, ops, full).committed
    ensures forall off :: off in s.heap ==>
      off in RunFrom(s, ops, full).heap && RunFrom(s, ops, full).heap[off] == s.heap[off]
    decreases |ops|
  {
    if ops != [] {
      StepKeepsTables(s, ops[0], full[0]);
      RunExtends(Step(s, ops[0], full[0]).0, ops[1..], full[1..]);
    }
  }

  /** A run of calls none of which begins or ends a snapshot. */
  ghost predicate Inside(ops: seq<Op>) {
    forall i :: 0 <= i < |ops| ==> !ops[i].BeginSnapshot? && !ops[i].EndSnapshot? && !ops[i].DiscardSnapshot?
  }

  lemma {:induction false} InsideKeepsCommitted(s: State, ops: seq<Op>, full: seq<bool>)
    requires IsRun(s, ops, full) && Inside(ops)
    ensures RunFrom(s, ops, full).committed == s.committed
    ensures RunFrom(s, ops, full).pending.Pending? <==> s.pending.Pending?
    ensures s.pending.Pending? ==> RunFrom(s, ops, full).pending.timestamp == s.pending.timestamp
    decreases |ops|
  {
    if ops != [] {
      InsideKeepsCommitted(Step(s, ops[0], full[0]).0, ops[1..], full[1..]);
    }
  }

  /** Whatever happens between a begin and a discard, the log is as if the snapshot had never been begun. */
  lemma DiscardedNeverBegan(s: State, ts: U64, ops: seq<Op>, full: seq<bool>)
    requires s.pending.Idle? && Inside(ops)
    requires IsRun(Apply(s, BeginSnapshot(ts)), ops, full)
    ensures
      var inside := RunFrom(Apply(s, BeginSnapshot(ts)), ops, full);
      var t := Apply(inside, DiscardSnapshot);
      t.committed == s.committed && t.pending == s.pending && t.objects == map[]
  {
    InsideKeepsCommitted(Apply(s, BeginSnapshot(ts)), ops, full);
  }

  /** A frame written and rolled back is as if never written, whatever the heap and the tables did meanwhile. */
  lemma {:induction false} RolledBackNeverWritten(s: State, f: Frame, ops: seq<Op>, full: seq<bool>)
    requires HasOpenStack(s)
    requires forall i :: 0 <= i < |ops| ==> ops[i].Write? || ops[i].Register? || ops[i].RegisterBoth?
    requires IsRun(Apply(s, WriteFrame(f)), ops, full)
    ensures
      var mid := RunFrom(Apply(s, WriteFrame(f)), ops, full);
      Allowed(mid, RollbackFrame) && Apply(mid, RollbackFrame).pending == s.pending
        && Apply(mid, RollbackFrame).committed == s.committed
  {
    var t := Apply(s, WriteFrame(f));
    ObjectWritesKeepRecords(t, ops, full);
    var frames := s.pending.open.frames;
    assert (frames + [f])[..|frames|] == frames;
  }

  lemma {:induction false} ObjectWritesKeepRecords(s: State, ops: seq<Op>, full: seq<bool>)
    requires forall i :: 0 <= i < |ops| ==> ops[i].Write? || ops[i].Register? || ops[i].RegisterBoth?
    requires IsRun(s, ops, full)
    ensures RunFrom(s, ops, full).pending == s.pending && RunFrom(s, ops, full).committed == s.committed
    decreases |ops|
  {
    if ops != [] {
      ObjectWritesKeepRecords(Step(s, ops[0], full[0]).0, ops[1..], full[1..]);
    }
  }
}
