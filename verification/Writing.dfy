/**
 * The writer: one growable mapping, the counters of the layout, and the calls of module Log carried
 * out on bytes. Every call ends where `Log.Step` says, whether or not it had to grow the file or
 * slide the heap, or ran out of space.
 */
module Writing {
  import opened Bytes
  import opened Format
  import opened Log
  import opened Layout
  import opened Keeps
  import opened Reading

  lemma {:induction false} Pow2Monotone(i: nat, j: nat)
    requires i <= j
    ensures Pow2(i) <= Pow2(j)
    decreases j
  {
    if i < j {
      Pow2Monotone(i, j - 1);
    }
  }

  /** Sizes are powers of two, so doubling one below the limit cannot pass it. */
  lemma NextDoubling(size: nat, d: nat)
    requires size == INITIAL_FILE_SIZE * Pow2(d) && size < MAX_FILE_SIZE
    ensures 2 * size == INITIAL_FILE_SIZE * Pow2(d + 1) && 2 * size <= MAX_FILE_SIZE
  {
    assert Pow2(10) == 1024 by {
      assert Pow2(5) == 32;
    }
    if d >= 10 {
      Pow2Monotone(10, d);
    } else {
      Pow2Monotone(d + 1, 10);
    }
  }

  /** The next block boundary. */
  function AlignToBlock(offset: nat): (r: nat)
    ensures offset <= r < offset + BLOCK_SIZE && r % BLOCK_SIZE == 0
  {
    (offset + BLOCK_SIZE - 1) / BLOCK_SIZE * BLOCK_SIZE
  }

  /** The file doubles at most ten times, and the heap moves at most thirteen times. */
  ghost predicate Growth(size: nat, doublings: nat, extensions: nat, heapStart: nat, relocations: nat) {
    && size == INITIAL_FILE_SIZE * Pow2(doublings) && extensions <= doublings
    && heapStart >= RECORDS_START + INITIAL_RECORDS_SIZE * Pow2(relocations)
  }

  lemma GrowthBounded(size: nat, doublings: nat, extensions: nat, heapStart: nat, relocations: nat)
    requires Growth(size, doublings, extensions, heapStart, relocations)
    requires heapStart <= size <= MAX_FILE_SIZE
    ensures extensions <= doublings <= 10 && relocations <= 13
  {
    assert Pow2(11) == 2048 && Pow2(14) == 16384 by {
      assert Pow2(4) == 16;
      assert Pow2(8) == 256;
      assert Pow2(11) == 2048;
    }
    if doublings > 10 {
      Pow2Monotone(11, doublings);
    }
    if relocations > 13 {
      Pow2Monotone(14, relocations);
    }
  }

  lemma RelocatedFrom(heapStart: nat, relocations: nat)
    requires heapStart >= RECORDS_START + INITIAL_RECORDS_SIZE * Pow2(relocations)
    ensures heapStart > RECORDS_START
    ensures RECORDS_START + 2 * (heapStart - RECORDS_START) >= RECORDS_START
      + INITIAL_RECORDS_SIZE * Pow2(relocations + 1)
  {
  }

  /** Bytes that a call appends to the records. */
  function RecordBytes(s: State, op: Op): nat {
    match op
    case BeginSnapshot(_) => SNAPSHOT_HEADER_SIZE
    case BeginStacktrace(info) => STACKTRACE_HEADER_SIZE + |info.threadName|
    case WriteFrame(f) => |EncFrame(f)|
    case EndSnapshot(_) => |s.objects| * MAP_ENTRY_SIZE
    case _ => 0
  }

  /** `size` doubled until it covers `needed`. */
  function Doubled(size: nat, needed: int): (r: nat)
    ensures r == size || r < 2 * needed - 1
    ensures size > 0 ==> r >= needed
    decreases needed - size
  {
    if size >= needed || size == 0 then size else Doubled(size * 2, needed)
  }

  /** Where the heap must start for records that end at `end`. */
  function HeapStartFor(heapStart: nat, end: nat): (r: nat)
    ensures end <= heapStart ==> r == heapStart
    ensures r == heapStart || r < 2 * end
  {
    if end <= heapStart || heapStart < RECORDS_START then heapStart
    else AlignToBlock(RECORDS_START + Doubled(heapStart - RECORDS_START, end - RECORDS_START))
  }

  lemma HeapStartBound(heapStart: nat, end: nat)
    ensures HeapStartFor(heapStart, end) == heapStart || HeapStartFor(heapStart, end) < 2 * end
  {
  }

  /** The size of the file with room for `n` more bytes of records; 0 if there is room already. */
  function RecordsNeed(c: Counters, n: nat): nat {
    if c.writeOffset + n <= c.heapStart then 0 else HeapStartFor(c.heapStart, c.writeOffset + n) + c.heapOffset
  }

  /** The size of the file a call needs. */
  function Needed(c: Counters, s: State, op: Op): nat {
    if op.Write? then c.heapStart + c.heapOffset + |EncRec(op.rec)|
    else if NeedsSpace(op) then RecordsNeed(c, RecordBytes(s, op)) else 0
  }

  /** How a call may end: as the log says, or without effect for want of space. */
  ghost predicate Stepped(s: State, op: Op, s': State, o: Outcome)
    requires Allowed(s, op)
  {
    var full := o == Failed(OutOfSpace);
    (full ==> NeedsSpace(op)) && (s', o) == Step(s, op, full)
  }

  /** As long as a stacktrace stays open, its header stays where it is. */
  ghost predicate SameStack(s: State, pos: nat, s': State, pos': nat) {
    HasOpenStack(s) && HasOpenStack(s') ==> pos' == pos
  }

  lemma Refused(s: State, op: Op)
    requires Allowed(s, op)
    ensures Refusal(s, op).Failed? ==> Stepped(s, op, s, Refusal(s, op))
  {
  }

  lemma Full(s: State, op: Op)
    requires Allowed(s, op) && NeedsSpace(op) && Refusal(s, op).Done?
    ensures Stepped(s, op, s, Failed(OutOfSpace))
  {
  }

  lemma Applied(s: State, op: Op)
    requires Allowed(s, op) && Refusal(s, op).Done?
    ensures Stepped(s, op, Apply(s, op), Done)
    ensures !op.EndSnapshot? && !op.DiscardSnapshot? && !op.Register? && !op.RegisterBoth?
       ==> Apply(s, op).objects == s.objects && Apply(s, op).cache == s.cache
    ensures op.EndStacktrace? || op.DiscardStacktrace? ==> !HasOpenStack(Apply(s, op))
    ensures op.DiscardStacktrace? && !HasOpenStack(s) ==> Apply(s, op) == s
    ensures op.DiscardSnapshot? && s.pending.Pending? ==> Apply(s, op).pending.Idle?
    ensures op.EndSnapshot? ==> Apply(s, op).objects == map[] && Apply(s, op).cache == s.cache
    ensures op.DiscardSnapshot? ==>
      if s.pending.Pending? then Apply(s, op).objects == map[] && Apply(s, op).cache == s.cache else Apply(s, op) == s
  {
  }

  lemma MapBytes(s: State, truncated: bool)
    requires s.pending.Pending? && s.pending.open.NoStack?
    ensures RecordBytes(s, EndSnapshot(truncated)) == |s.objects| * MAP_ENTRY_SIZE
    ensures Refusal(s, EndSnapshot(truncated)).Done?
  {
  }

  lemma FrameBytes(s: State, f: Frame)
    requires HasOpenStack(s)
    ensures RecordBytes(s, WriteFrame(f)) == |EncFrame(f)| && Refusal(s, WriteFrame(f)).Done?
  {
  }

  lemma SameSlice(a: seq<Byte>, i: nat, b: seq<Byte>, j: nat, n: nat)
    requires i + n <= |a| && j + n <= |b| && forall k :: j <= k < j + n ==> b[k] == a[k - j + i]
    ensures b[j..j + n] == a[i..i + n]
  {
  }

  class SnapshotWriter {
    var initialized: bool
    var mem: array<Byte>  // the mapping; its length is the current file size
    var writeOffset: nat
    var heapStart: nat
    var heapOffset: nat
    var lastSnapshotPos: nat
    var snapshotCount: nat
    var objects: map<U64, U64>
    var cache: map<U64, CacheEntry>
    var currentSnapshotPos: nat
    var currentStacktraceCount: nat
    var snapshotInProgress: bool
    var currentStacktracePos: nat
    var currentFrameCount: nat
    var stacktraceInProgress: bool
    var reader: SnapshotReader?  // borrows the mapping
    const refuses: nat -> bool  // what the file system answers when asked for more, time after time
    var attempts: nat  // how often it has been asked

    ghost var st: State
    ghost var snaps: seq<Snap>
    ghost var doublings: nat
    ghost var extensions: nat
    ghost var relocations: nat

    ghost function C(): Counters
      reads this
    {
      Counters(writeOffset, heapStart, heapOffset, lastSnapshotPos, snapshotCount,
               snapshotInProgress, currentSnapshotPos, currentStacktraceCount,
               stacktraceInProgress, currentStacktracePos, currentFrameCount)
    }

    /** The borrowed reader looks at the mapping as it is now, wherever it has moved. */
    ghost predicate Shared()
      reads this, reader
    {
      reader != null ==> reader.data == mem
    }

    ghost predicate Valid()
      reads this, mem, reader
    {
      && Shared()
      && (!initialized ==> reader == null)
      && (initialized ==>
            && Inv(mem[..], C(), snaps, st)
            && Growth(mem.Length, doublings, extensions, heapStart, relocations)
            && st.objects == objects && st.cache == cache)
    }

    constructor (refuses: nat -> bool)
      ensures Valid() && !initialized && reader == null && fresh(mem) && this.refuses == refuses && attempts == 0
    {
      this.refuses, attempts := refuses, 0;
      initialized, reader := false, null;
      mem := new Byte[0];
      writeOffset, heapStart, heapOffset, lastSnapshotPos, snapshotCount := 0, 0, 0, 0, 0;
      objects, cache := map[], map[];
      currentSnapshotPos, currentStacktraceCount, snapshotInProgress := 0, 0, false;
      currentStacktracePos, currentFrameCount, stacktraceInProgress := 0, 0, false;
      st, snaps, doublings, extensions, relocations := Empty, [], 0, 0, 0;
    }

    /** The file has this size, or can be grown to it. */
    ghost predicate Grants(size: nat)
      reads this, mem
    {
      size <= mem.Length || (size <= MAX_FILE_SIZE && !refuses(attempts))
    }

    /** The file has this size, or can be grown to it and will be. */
    ghost predicate CanHold(size: nat)
      reads this, mem
    {
      size <= mem.Length || (size <= MAX_FILE_SIZE && forall k: nat :: attempts <= k ==> !refuses(k))
    }

    /** The file system was asked again, and refused. */
    ghost predicate Again(since: nat)
      reads this
    {
      since < attempts && refuses(attempts - 1)
    }

    /** The file does not have this size: it is above the limit, or the last extension since then was refused. */
    ghost predicate Short(size: nat, since: nat)
      reads this, mem
    {
      mem.Length < size && (size > MAX_FILE_SIZE || Again(since))
    }

    ghost predicate HasRoom(op: Op)
      reads this, mem
    {
      Grants(Needed(C(), st, op))
    }

    /** The next call would be this one, and there was no room for it. */
    ghost predicate Lacks(op: Op, since: nat)
      reads this, mem
    {
      NeedsSpace(op) && Allowed(st, op) && Refusal(st, op).Done? && Short(Needed(C(), st, op), since)
    }

    /** There was room for the call if it needed any, and the heap moved no farther than the records need. */
    twostate predicate Afforded(op: Op)
      reads this`heapStart, this`attempts
    {
      && old(Refusal(st, op).Failed? || HasRoom(op))
      && (heapStart == old(heapStart) ||
            (old(Refusal(st, op)).Done? && RecordBytes(old(st), op) > 0
             && heapStart < 2 * (old(writeOffset) + RecordBytes(old(st), op))))
      && old(attempts) <= attempts
    }

    twostate lemma NothingMoved(op: Op)
      requires heapStart == old(heapStart) && attempts == old(attempts)
      ensures old(Refusal(st, op)).Failed? ==> Afforded(op)
    {
    }

    /** There was no room for the call, and nothing has moved. */
    twostate predicate RanOut(op: Op)
      reads this, mem
    {
      && old(Refusal(st, op).Done? && !HasRoom(op)) && Lacks(op, old(attempts))
      && C() == old(C()) && st == old(st) && old(attempts) <= attempts
    }

    /** A call runs out of space exactly if there was no room for it. */
    twostate predicate Fair(op: Op, o: Outcome)
      reads this, mem
    {
      if o == Failed(OutOfSpace) then RanOut(op) else Afforded(op)
    }

    /** A fresh file: header block, room for records, empty heap. */
    method Initialize() returns (o: Outcome)
      requires Valid()
      modifies this
      ensures Valid() && initialized && reader == old(reader) && attempts == old(attempts)
      ensures old(initialized) ==> o == Failed(AlreadyInitialized)
      ensures old(initialized) ==> mem == old(mem) && st == old(st) && snaps == old(snaps)
      ensures !old(initialized) ==> o == Done && fresh(mem) && st == Empty && snaps == [] && C() == FreshCounters()
      ensures !old(initialized) ==> extensions == relocations == 0
    {
      hide Inv, FreshCounters;
      if initialized {
        return Failed(AlreadyInitialized);
      }
      StartFile();
      o := Done;
    }

    method StartFile()
      requires reader == null
      modifies this
      ensures Valid() && initialized && reader == null && attempts == old(attempts)
      ensures fresh(mem) && st == Empty && snaps == [] && extensions == relocations == 0 && C() == FreshCounters()
    {
      hide Inv, HeaderOk, FreshCounters, Growth, SnapshotWriter.Valid;
      mem := FreshFile();
      initialized := true;
      ResetCounters();
      FreshInv(mem[..], C());
      FreshGrowth();
      StartLog();
    }

    /** An empty log in a fresh file. */
    ghost method StartLog()
      requires reader == null && initialized && objects == map[] && cache == map[]
      requires Inv(mem[..], C(), [], Empty) && Growth(mem.Length, 0, 0, heapStart, 0)
      modifies this`st, this`snaps, this`doublings, this`extensions, this`relocations
      ensures Valid() && st == Empty && snaps == [] && extensions == relocations == 0
    {
      hide Inv, Growth;
      st, snaps, doublings, extensions, relocations := Empty, [], 0, 0, 0;
    }

    method ResetCounters()
      modifies this`writeOffset, this`heapStart, this`heapOffset, this`lastSnapshotPos, this`snapshotCount,
               this`objects, this`cache, this`currentSnapshotPos, this`currentStacktraceCount, this`snapshotInProgress,
               this`currentStacktracePos, this`currentFrameCount, this`stacktraceInProgress
      ensures C() == FreshCounters() && objects == map[] && cache == map[]
    {
      writeOffset := AlignToBlock(FILE_HEADER_SIZE);
      heapStart := AlignToBlock(writeOffset + INITIAL_RECORDS_SIZE);
      heapOffset, lastSnapshotPos, snapshotCount := 0, 0, 0;
      objects, cache := map[], map[];
      currentSnapshotPos, currentStacktraceCount, snapshotInProgress := 0, 0, false;
      currentStacktracePos, currentFrameCount, stacktraceInProgress := 0, 0, false;
    }

    /** The initial mapping: magic number and version, then zeros. */
    static method FreshFile() returns (file: array<Byte>)
      ensures fresh(file) && file.Length == INITIAL_FILE_SIZE
      ensures HeaderOk(file[..], FreshCounters())
    {
      file := new Byte[INITIAL_FILE_SIZE](_ => 0);
      var header := U32Bytes(MAGIC_NUMBER) + U32Bytes(FORMAT_VERSION);
      forall i | 0 <= i < |header| {
        file[i] := header[i];
      }
      assert file[..][0..8] == header;
      AtSplit(file[..], 0, U32Bytes(MAGIC_NUMBER), U32Bytes(FORMAT_VERSION));
      LEZero(8);
      LEZero(4);
    }

    /** Give up the mapping; the borrowed reader loses it, too. */
    method Cleanup()
      requires Shared()
      modifies this, reader
      ensures Valid() && !initialized && reader == null
      ensures old(reader) != null ==> old(reader).data == null
    {
      if reader != null {
        reader.UpdateMemory(null);
        reader := null;
      }
      mem := new Byte[0];
      writeOffset, heapStart, heapOffset, lastSnapshotPos := 0, 0, 0, 0;
      objects, cache := map[], map[];
      currentSnapshotPos, currentFrameCount, snapshotInProgress := 0, 0, false;
      initialized := false;
    }

    /** Lend the mapping to a reader. */
    method SetBorrowedReader(r: SnapshotReader)
      requires Valid() && initialized && r.data == mem
      modifies this`reader
      ensures Valid() && reader == r
    {
      reader := r;
    }

    // ----------------------------------------------------------------
    // Raw writes
    // ----------------------------------------------------------------

    method Poke(pos: nat, bytes: seq<Byte>)
      requires pos + |bytes| <= mem.Length
      modifies mem
      ensures Wrote(old(mem[..]), mem[..], pos, bytes)
    {
      forall i | 0 <= i < |bytes| {
        mem[pos + i] := bytes[i];
      }
      assert forall i :: 0 <= i < |bytes| ==> mem[pos + i] == bytes[i];
      assert mem[..][pos..pos + |bytes|] == bytes;
    }

    /** Copy to the write offset and advance it. */
    method Append(bytes: seq<Byte>)
      requires writeOffset + |bytes| <= mem.Length
      modifies mem, this`writeOffset
      ensures Wrote(old(mem[..]), mem[..], old(writeOffset), bytes)
      ensures writeOffset == old(writeOffset) + |bytes|
    {
      Poke(writeOffset, bytes);
      writeOffset := writeOffset + |bytes|;
    }

    /** Copy to the end of the heap and advance it. */
    method AppendHeap(bytes: seq<Byte>)
      requires heapStart + heapOffset + |bytes| <= mem.Length
      modifies mem, this`heapOffset
      ensures Wrote(old(mem[..]), mem[..], heapStart + old(heapOffset), bytes)
      ensures heapOffset == old(heapOffset) + |bytes|
    {
      Poke(heapStart + heapOffset, bytes);
      heapOffset := heapOffset + |bytes|;
    }

    method UpdateHeader()
      requires FILE_HEADER_SIZE <= mem.Length
      modifies mem
      ensures Wrote(old(mem[..]), mem[..], LAST_SNAPSHOT_AT, HeaderUpdate(lastSnapshotPos, snapshotCount, heapStart))
    {
      ghost var img := mem[..];
      Poke(LAST_SNAPSHOT_AT, LE(lastSnapshotPos, 8));
      ghost var img1 := mem[..];
      Poke(SNAPSHOT_COUNT_AT, LE(snapshotCount, 4));
      ghost var img2 := mem[..];
      Poke(HEAP_POS_AT, LE(heapStart, 8));
      WroteThen(img, img1, img2, LAST_SNAPSHOT_AT, LE(lastSnapshotPos, 8), LE(snapshotCount, 4));
      WroteThen(img, img2, mem[..], LAST_SNAPSHOT_AT, LE(lastSnapshotPos, 8) + LE(snapshotCount, 4), LE(heapStart, 8));
    }

    // ----------------------------------------------------------------
    // Growth
    // ----------------------------------------------------------------

    /** One `ftruncate` and remap. The mapping moves; the borrowed reader is told. */
    method ExtendFile(newSize: nat, ghost d: nat) returns (ok: bool)
      requires Valid() && initialized && newSize <= MAX_FILE_SIZE
      requires newSize > mem.Length ==> d > doublings && newSize == INITIAL_FILE_SIZE * Pow2(d)
      modifies this`mem, this`doublings, this`extensions, this`attempts, reader
      ensures Valid()
      ensures mem == old(mem) || fresh(mem)
      ensures SameOn(old(mem[..]), mem[..], 0, old(mem.Length))
      ensures ok ==> mem.Length >= newSize
      ensures old(mem.Length) <= mem.Length
      ensures ok == old(newSize <= mem.Length || !refuses(attempts))
      ensures old(attempts) <= attempts <= old(attempts) + 1
      ensures newSize <= old(mem.Length) ==> mem == old(mem) && attempts == old(attempts)
      ensures !ok ==> mem == old(mem) && attempts == old(attempts) + 1
    {
      hide Inv, Pow2;
      if newSize <= mem.Length {
        return true;
      }
      ok := !refuses(attempts);
      attempts := attempts + 1;
      if !ok {
        return;
      }
      Remap(newSize, d);
    }

    /** Move to a larger mapping and tell the borrowed reader. */
    method Remap(newSize: nat, ghost d: nat)
      requires Valid() && initialized && mem.Length < newSize <= MAX_FILE_SIZE
      requires d > doublings && newSize == INITIAL_FILE_SIZE * Pow2(d)
      modifies this`mem, this`doublings, this`extensions, reader
      ensures Valid() && fresh(mem) && mem.Length == newSize
      ensures SameOn(old(mem[..]), mem[..], 0, old(mem.Length))
    {
      hide Inv, Pow2;
      ghost var img, c := mem[..], C();
      SwapMapping(newSize);
      doublings, extensions := d, extensions + 1;
      ExtendKeeps(img, mem[..], c, snaps, st);
    }

    method SwapMapping(newSize: nat)
      requires Shared() && mem.Length <= newSize
      modifies this`mem, reader
      ensures Shared() && fresh(mem) && mem.Length == newSize && SameOn(old(mem[..]), mem[..], 0, old(mem.Length))
    {
      var bigger := Grown(mem, newSize);
      mem := bigger;
      if reader != null {
        reader.UpdateMemory(mem);
      }
    }

    /** A larger mapping of the same file: old bytes first, then zeros. */
    static method Grown(from: array<Byte>, newSize: nat) returns (bigger: array<Byte>)
      requires from.Length <= newSize
      ensures fresh(bigger) && bigger.Length == newSize && SameOn(from[..], bigger[..], 0, from.Length)
    {
      bigger := new Byte[newSize](_ => 0);
      forall i | 0 <= i < from.Length {
        bigger[i] := from[i];
      }
    }

    /** Double the file until `requiredSize` fits. */
    method ExtendToFit(requiredSize: nat) returns (ok: bool)
      requires Valid() && initialized
      modifies this`mem, this`doublings, this`extensions, this`attempts, reader
      ensures Valid()
      ensures mem == old(mem) || fresh(mem)
      ensures SameOn(old(mem[..]), mem[..], 0, old(mem.Length))
      ensures ok ==> requiredSize <= mem.Length
      ensures ok == old(Grants(requiredSize))
      ensures requiredSize <= old(mem.Length) ==> mem == old(mem) && attempts == old(attempts)
      ensures !ok ==> mem == old(mem) && Short(requiredSize, old(attempts))
      ensures old(attempts) <= attempts && old(mem.Length) <= mem.Length
    {
      hide Inv, Pow2;
      InvOrder(mem[..], C(), snaps, st);
      if requiredSize <= mem.Length {
        return true;
      }
      var newSize := mem.Length;
      ghost var d: nat := doublings;
      while newSize < requiredSize
        invariant newSize == INITIAL_FILE_SIZE * Pow2(d) && d >= doublings && newSize <= MAX_FILE_SIZE
        invariant newSize > mem.Length ==> d > doublings
        modifies {}
        decreases MAX_FILE_SIZE - newSize
      {
        if newSize >= MAX_FILE_SIZE {
          return false;
        }
        NextDoubling(newSize, d);
        newSize := newSize * 2;
        d := d + 1;
      }
      if newSize > MAX_FILE_SIZE {
        newSize := MAX_FILE_SIZE;
      }
      if requiredSize > newSize {
        return false;
      }
      ok := ExtendFile(newSize, d);
    }

    /** Room for `requiredSpace` more bytes of heap. */
    method EnsureHeapSpace(requiredSpace: nat) returns (ok: bool)
      requires Valid() && initialized
      modifies this`mem, this`doublings, this`extensions, this`attempts, reader
      ensures Valid()
      ensures mem == old(mem) || fresh(mem)
      ensures ok ==> heapStart + heapOffset + requiredSpace <= mem.Length
      ensures ok == old(Grants(heapStart + heapOffset + requiredSpace))
      ensures old(heapStart + heapOffset + requiredSpace <= mem.Length) ==> mem == old(mem)
      ensures !ok ==> mem == old(mem) && Short(heapStart + heapOffset + requiredSpace, old(attempts))
      ensures old(attempts) <= attempts
    {
      var requiredSize := heapStart + heapOffset + requiredSpace;
      if requiredSize > mem.Length {
        ok := ExtendToFit(requiredSize);
        return;
      }
      ok := true;
    }

    /** Slide the bytes of the heap forward, as `memmove` does. */
    method MoveHeap(newStart: nat)
      requires heapStart + heapOffset <= mem.Length && heapStart <= newStart && newStart + heapOffset <= mem.Length
      modifies mem
      ensures SameOn(old(mem[..]), mem[..], 0, heapStart)
      ensures mem[newStart..newStart + heapOffset] == old(mem[..])[heapStart..heapStart + heapOffset]
    {
      ghost var img := mem[..];
      forall k | newStart <= k < newStart + heapOffset {
        mem[k] := mem[k - newStart + heapStart];
      }
      SameSlice(img, heapStart, mem[..], newStart, heapOffset);
    }

    /** Double the room for records until they can end at `end`. */
    method NewHeapStart(end: nat) returns (newStart: nat)
      requires RECORDS_START < heapStart < end
      ensures newStart == HeapStartFor(heapStart, end)
      ensures newStart >= end && newStart >= RECORDS_START + 2 * (heapStart - RECORDS_START)
    {
      var newSize := heapStart - RECORDS_START;
      while RECORDS_START + newSize < end
        invariant newSize > 0
        invariant newSize >= 2 * (heapStart - RECORDS_START) || newSize == heapStart - RECORDS_START
        invariant Doubled(newSize, end - RECORDS_START) == Doubled(heapStart - RECORDS_START, end - RECORDS_START)
        decreases end - newSize
      {
        newSize := newSize * 2;
      }
      newStart := AlignToBlock(RECORDS_START + newSize);
    }

    /** Room for `bytesNeeded` more bytes of records, sliding the heap out of the way if need be. */
    method EnsureRecordSpace(bytesNeeded: nat) returns (ok: bool)
      requires Valid() && initialized
      modifies this`mem, this`heapStart, this`doublings, this`extensions, this`attempts, this`relocations, mem, reader
      ensures Valid()
      ensures mem == old(mem) || fresh(mem)
      ensures ok ==> writeOffset + bytesNeeded <= heapStart
      ensures ok == old(Grants(RecordsNeed(C(), bytesNeeded)))
      ensures heapStart == if ok then old(HeapStartFor(heapStart, writeOffset + bytesNeeded)) else old(heapStart)
      ensures writeOffset + bytesNeeded <= old(heapStart) ==> mem == old(mem)
      ensures !ok ==> mem == old(mem) && Short(RecordsNeed(C(), bytesNeeded), old(attempts))
      ensures old(attempts) <= attempts
    {
      hide Inv, Growth, HeapStartFor;
      InvOrder(mem[..], C(), snaps, st);
      if writeOffset + bytesNeeded <= heapStart {
        return true;
      }
      ok := RelocateHeap(writeOffset + bytesNeeded);
    }

    /** A new place for the heap beyond `end`, in a larger file if need be. */
    method RelocateHeap(end: nat) returns (ok: bool)
      requires Valid() && initialized && end > heapStart
      modifies this`mem, this`heapStart, this`doublings, this`extensions, this`attempts, this`relocations, mem, reader
      ensures Valid()
      ensures mem == old(mem) || fresh(mem)
      ensures ok == old(Grants(HeapStartFor(heapStart, end) + heapOffset))
      ensures ok ==> heapStart == old(HeapStartFor(heapStart, end)) >= end
      ensures !ok ==> heapStart == old(heapStart) && mem == old(mem)
      ensures !ok ==> Short(HeapStartFor(heapStart, end) + heapOffset, old(attempts))
      ensures old(attempts) <= attempts
    {
      hide Inv, Pow2, HeapStartFor;
      InvOrder(mem[..], C(), snaps, st);
      RelocatedFrom(heapStart, relocations);
      var newStart := NewHeapStart(end);
      var requiredSize := newStart + heapOffset;
      if requiredSize > mem.Length {
        var fits := ExtendToFit(requiredSize);
        if !fits {
          return false;
        }
      }
      Relocate(newStart);
      ok := true;
    }

    method Relocate(newStart: nat)
      requires Valid() && initialized
      requires newStart >= RECORDS_START + 2 * (heapStart - RECORDS_START) && newStart + heapOffset <= mem.Length
      modifies this`heapStart, this`relocations, mem
      ensures Valid() && heapStart == newStart
      ensures relocations == old(relocations) + 1
    {
      hide Inv, Wrote, HeaderUpdate, Pow2, SameOn;
      InvOrder(mem[..], C(), snaps, st);
      RelocatedFrom(heapStart, relocations);
      ghost var img, c := mem[..], C();
      ghost var moved := SlideHeap(newStart);
      relocations := relocations + 1;
      RelocateKeeps(img, moved, mem[..], c, newStart, snaps, st);
    }

    /** Move the heap, then say in the header where it is. */
    method SlideHeap(newStart: nat) returns (ghost moved: seq<Byte>)
      requires FILE_HEADER_SIZE <= heapStart <= newStart && newStart + heapOffset <= mem.Length
      modifies this`heapStart, mem
      ensures heapStart == newStart && |moved| == mem.Length
      ensures SameOn(old(mem[..]), moved, 0, old(heapStart))
      ensures moved[newStart..newStart + heapOffset] == old(mem[..])[old(heapStart)..old(heapStart) + heapOffset]
      ensures Wrote(moved, mem[..], LAST_SNAPSHOT_AT, HeaderUpdate(lastSnapshotPos, snapshotCount, newStart))
    {
      hide Wrote, HeaderUpdate, SameOn;
      if heapOffset > 0 {
        MoveHeap(newStart);
      } else {
        Unchanged(mem[..], 0, heapStart);
      }
      moved := mem[..];
      heapStart := newStart;
      UpdateHeader();
    }

    /** Room for the records of a call. */
    method ReserveRecords(space: nat, ghost op: Op) returns (o: Outcome)
      requires Valid() && initialized && NeedsSpace(op) && !op.Write? && Refusal(st, op).Done?
      requires space == RecordBytes(st, op)
      modifies this`mem, this`heapStart, this`doublings, this`extensions, this`attempts, this`relocations, mem, reader
      ensures Valid() && (mem == old(mem) || fresh(mem))
      ensures o.Failed? ==> Stepped(st, op, st, o)
      ensures o.Done? ==> writeOffset + space <= heapStart
      ensures Fair(op, o)
    {
      hide Inv, Growth, Stepped, HeapStartFor, Refusal, RecordBytes, EncRec, Doubled;
      InvOrder(mem[..], C(), snaps, st);
      var ok := EnsureRecordSpace(space);
      if !ok {
        Full(st, op);
        return Failed(OutOfSpace);
      }
      HeapStartBound(old(heapStart), writeOffset + space);
      o := Done;
    }

    // ----------------------------------------------------------------
    // Snapshots
    // ----------------------------------------------------------------

    method BeginSnapshot(timestamp: U64) returns (o: Outcome)
      requires Valid()
      modifies this, mem, reader
      ensures Valid() && initialized == old(initialized) && reader == old(reader) && (mem == old(mem) || fresh(mem))
      ensures !initialized ==> o == Failed(NotInitialized) && st == old(st)
      ensures initialized ==> Stepped(old(st), Op.BeginSnapshot(timestamp), st, o)
      ensures initialized ==> Fair(Op.BeginSnapshot(timestamp), o)
      ensures SameStack(old(st), old(currentStacktracePos), st, currentStacktracePos)
    {
      hide Inv, Growth, Stepped, Apply, SnapshotWriter.Afforded, SnapshotWriter.RanOut;
      if !initialized {
        return Failed(NotInitialized);
      }
      InvFlags(mem[..], C(), snaps, st);
      Refused(st, Op.BeginSnapshot(timestamp));
      NothingMoved(Op.BeginSnapshot(timestamp));
      if snapshotInProgress {
        return Failed(SnapshotOpen);
      }
      o := ReserveRecords(SNAPSHOT_HEADER_SIZE, Op.BeginSnapshot(timestamp));
      if o.Failed? {
        return;
      }
      OpenSnapshot(timestamp);
      o := Done;
    }

    /** The bytes are written and the counters set: the call is part of the log. */
    ghost method Settle(op: Op, after: seq<Snap>)
      requires Allowed(st, op) && Refusal(st, op).Done? && Shared() && initialized
      requires Growth(mem.Length, doublings, extensions, heapStart, relocations)
      requires Inv(mem[..], C(), after, Apply(st, op)) && Apply(st, op).objects == objects
      requires Apply(st, op).cache == cache
      modifies this`st, this`snaps
      ensures Valid() && st == Apply(old(st), op) && snaps == after
    {
      hide Inv, Growth, Apply;
      st, snaps := Apply(st, op), after;
    }

    /** Write the header of a new snapshot, its totals still to come. */
    method OpenSnapshot(timestamp: U64)
      requires Valid() && initialized && st.pending.Idle?
      requires writeOffset + SNAPSHOT_HEADER_SIZE <= heapStart
      modifies mem, this`writeOffset, this`currentSnapshotPos, this`currentStacktraceCount, this`currentFrameCount,
               this`stacktraceInProgress, this`snapshotInProgress, this`st, this`snaps
      ensures Valid()
      ensures Stepped(old(st), Op.BeginSnapshot(timestamp), st, Done)
    {
      hide Inv, Growth, Wrote, EncSnapHeader, Apply, Stepped;
      ghost var img, c := mem[..], C();
      RecordRoom(img, c, snaps, st);
      StartSnapshot();
      Append(EncSnapHeader(timestamp, lastSnapshotPos, 0, 0, 0, 0));
      BeginKeeps(img, mem[..], c, timestamp, snaps, st);
      Applied(st, Op.BeginSnapshot(timestamp));
      Settle(Op.BeginSnapshot(timestamp), snaps);
    }

    method StartSnapshot()
      modifies this`currentSnapshotPos, this`currentStacktraceCount, this`currentFrameCount,
               this`stacktraceInProgress, this`snapshotInProgress
      ensures C() ==
        old(C()).(snapshotPos := writeOffset, stackCount := 0, frameCount := 0, stackOpen := false,
                  snapshotOpen := true)
    {
      currentSnapshotPos := writeOffset;
      currentStacktraceCount, currentFrameCount := 0, 0;
      stacktraceInProgress, snapshotInProgress := false, true;
    }

    method BeginStacktrace(info: StackInfo) returns (o: Outcome)
      requires Valid()
      modifies this, mem, reader
      ensures Valid() && initialized == old(initialized) && reader == old(reader) && (mem == old(mem) || fresh(mem))
      ensures !initialized ==> o == Failed(NotInitialized) && st == old(st)
      ensures initialized ==> Stepped(old(st), Op.BeginStacktrace(info), st, o)
      ensures initialized ==> Fair(Op.BeginStacktrace(info), o)
      ensures SameStack(old(st), old(currentStacktracePos), st, currentStacktracePos)
    {
      hide Inv, Growth, Stepped, Apply, SnapshotWriter.Afforded, SnapshotWriter.RanOut;
      if !initialized {
        return Failed(NotInitialized);
      }
      InvFlags(mem[..], C(), snaps, st);
      Refused(st, Op.BeginStacktrace(info));
      NothingMoved(Op.BeginStacktrace(info));
      if !snapshotInProgress {
        return Failed(NoSnapshot);
      }
      if stacktraceInProgress {
        return Failed(StackOpen);
      }
      o := ReserveRecords(STACKTRACE_HEADER_SIZE + |info.threadName|, Op.BeginStacktrace(info));
      if o.Failed? {
        return;
      }
      OpenStacktrace(info);
      o := Done;
    }

    /** Write the header and thread name of a new stacktrace, its frame count still to come. */
    method OpenStacktrace(info: StackInfo)
      requires Valid() && initialized && st.pending.Pending? && st.pending.open.NoStack?
      requires writeOffset + STACKTRACE_HEADER_SIZE + |info.threadName| <= heapStart
      modifies mem, this`writeOffset, this`currentStacktracePos, this`currentFrameCount, this`stacktraceInProgress,
               this`st, this`snaps
      ensures Valid()
      ensures Stepped(old(st), Op.BeginStacktrace(info), st, Done)
    {
      hide Inv, Growth, Wrote, EncStackHeader, Apply, Stepped;
      ghost var img, c := mem[..], C();
      RecordRoom(img, c, snaps, st);
      StartStack();
      PutStackHeader(info);
      BeginStackKeeps(img, mem[..], c, info, snaps, st);
      Applied(st, Op.BeginStacktrace(info));
      Settle(Op.BeginStacktrace(info), snaps);
    }

    method StartStack()
      modifies this`currentStacktracePos, this`currentFrameCount, this`stacktraceInProgress
      ensures C() == old(C()).(stackPos := writeOffset, frameCount := 0, stackOpen := true)
    {
      currentStacktracePos := writeOffset;
      currentFrameCount := 0;
      stacktraceInProgress := true;
    }

    method PutStackHeader(info: StackInfo)
      requires writeOffset + STACKTRACE_HEADER_SIZE + |info.threadName| <= mem.Length
      modifies mem, this`writeOffset
      ensures Wrote(old(mem[..]), mem[..], old(writeOffset), EncStackHeader(SelfLinked(info), 0, 0) + info.threadName)
      ensures writeOffset == old(writeOffset) + STACKTRACE_HEADER_SIZE + |info.threadName|
    {
      ghost var img, at := mem[..], writeOffset;
      Append(EncStackHeader(SelfLinked(info), 0, 0));
      ghost var img1 := mem[..];
      if info.threadName != [] {
        Append(info.threadName);
      } else {
        WroteNothing(img1, writeOffset);
      }
      WroteThen(img, img1, mem[..], at, EncStackHeader(SelfLinked(info), 0, 0), info.threadName);
    }

    /** The object map, in whatever order the table yields it. */
    method PutObjectMap() returns (ghost entries: seq<Entry>)
      requires writeOffset + |objects| * MAP_ENTRY_SIZE <= mem.Length
      modifies mem, this`writeOffset
      ensures MapIs(entries, objects) && |entries| == |objects|
      ensures Wrote(old(mem[..]), mem[..], old(writeOffset), Cat(EncEntry, entries))
      ensures writeOffset == old(writeOffset) + MAP_ENTRY_SIZE * |entries|
    {
      hide Wrote;
      ghost var img, at := mem[..], writeOffset;
      WroteNothing(img, at);
      var keys := objects.Keys;
      entries := [];
      while keys != {}
        invariant keys <= objects.Keys && |entries| + |keys| == |objects.Keys|
        invariant forall i :: 0 <= i < |entries| ==>
          entries[i].pythonId in objects && objects[entries[i].pythonId] == entries[i].offset
        invariant forall id :: id in objects && id !in keys ==>
          exists i :: 0 <= i < |entries| && entries[i].pythonId == id
        invariant writeOffset == at + MAP_ENTRY_SIZE * |entries|
        invariant |Cat(EncEntry, entries)| == MAP_ENTRY_SIZE * |entries|
        invariant Wrote(img, mem[..], at, Cat(EncEntry, entries))
        decreases |keys|
      {
        var id :| id in keys;
        ghost var before := entries;
        PutEntry(img, at, Entry(id, objects[id]), entries);
        entries := entries + [Entry(id, objects[id])];
        keys := keys - {id};
        forall k | k in objects && k !in keys ensures exists i :: 0 <= i < |entries| && entries[i].pythonId == k {
          if k == id {
            assert entries[|before|].pythonId == k;
          } else {
            var i :| 0 <= i < |before| && before[i].pythonId == k;
            assert entries[i].pythonId == k;
          }
        }
      }
    }

    method PutEntry(ghost img: seq<Byte>, ghost at: nat, e: Entry, ghost entries: seq<Entry>)
      requires writeOffset + MAP_ENTRY_SIZE <= mem.Length
      requires writeOffset == at + |Cat(EncEntry, entries)| && Wrote(img, mem[..], at, Cat(EncEntry, entries))
      modifies mem, this`writeOffset
      ensures writeOffset == old(writeOffset) + MAP_ENTRY_SIZE
      ensures Wrote(img, mem[..], at, Cat(EncEntry, entries + [e]))
      ensures |Cat(EncEntry, entries + [e])| == |Cat(EncEntry, entries)| + MAP_ENTRY_SIZE
    {
      hide Wrote;
      ghost var img1 := mem[..];
      Append(EncEntry(e));
      WroteThen(img, img1, mem[..], at, Cat(EncEntry, entries), EncEntry(e));
      assert (entries + [e])[..|entries|] == entries;
    }

    /** Fill in the totals of the open snapshot. */
    method FillSnapshotHeader(stackCount: nat, mapPos: nat, mapCount: nat, flags: Byte)
      requires currentSnapshotPos + SNAPSHOT_HEADER_SIZE <= mem.Length
      modifies mem
      ensures Wrote(old(mem[..]), mem[..], currentSnapshotPos + 16, SnapUpdate(stackCount, mapPos, mapCount, flags))
    {
      hide Wrote, LE;
      ghost var img := mem[..];
      var pos := currentSnapshotPos + 16;
      Poke(pos, LE(stackCount, 4));
      ghost var img1 := mem[..];
      Poke(pos + 4, LE(mapPos, 8));
      ghost var img2 := mem[..];
      WroteThen(img, img1, img2, pos, LE(stackCount, 4), LE(mapPos, 8));
      Poke(pos + 12, LE(mapCount, 4));
      ghost var img3 := mem[..];
      WroteThen(img, img2, img3, pos, LE(stackCount, 4) + LE(mapPos, 8), LE(mapCount, 4));
      Poke(pos + 16, [flags]);
      WroteThen(img, img3, mem[..], pos, LE(stackCount, 4) + LE(mapPos, 8) + LE(mapCount, 4), [flags]);
    }

    method EndSnapshot(truncated: bool) returns (o: Outcome)
      requires Valid()
      modifies this, mem, reader
      ensures Valid() && initialized == old(initialized) && reader == old(reader) && (mem == old(mem) || fresh(mem))
      ensures !initialized ==> o == Failed(NotInitialized) && st == old(st)
      ensures initialized ==> Stepped(old(st), Op.EndSnapshot(truncated), st, o)
      ensures initialized ==> Fair(Op.EndSnapshot(truncated), o)
      ensures SameStack(old(st), old(currentStacktracePos), st, currentStacktracePos)
    {
      hide Inv, Growth, Stepped, Apply, SnapshotWriter.Afforded, SnapshotWriter.RanOut;
      if !initialized {
        return Failed(NotInitialized);
      }
      InvFlags(mem[..], C(), snaps, st);
      Refused(st, Op.EndSnapshot(truncated));
      NothingMoved(Op.EndSnapshot(truncated));
      if !snapshotInProgress {
        return Failed(NoSnapshot);
      }
      if stacktraceInProgress {
        return Failed(StackOpen);
      }
      o := CommitSnapshot(truncated);
    }

    /** Make room for the object map, then close the snapshot. */
    method CommitSnapshot(truncated: bool) returns (o: Outcome)
      requires Valid() && initialized && st.pending.Pending? && st.pending.open.NoStack?
      modifies this, mem, reader
      ensures Valid() && initialized && reader == old(reader) && (mem == old(mem) || fresh(mem))
      ensures Stepped(old(st), Op.EndSnapshot(truncated), st, o)
      ensures Fair(Op.EndSnapshot(truncated), o)
      ensures currentStacktracePos == old(currentStacktracePos)
    {
      hide Inv, Growth, Stepped, Apply, RecordBytes, Refusal, SnapshotWriter.Afforded, SnapshotWriter.RanOut;
      MapBytes(st, truncated);
      o := ReserveRecords(|objects| * MAP_ENTRY_SIZE, Op.EndSnapshot(truncated));
      if o.Failed? {
        return;
      }
      CloseSnapshot(truncated);
      o := Done;
    }

    /** Write the object map, fill in the header of the snapshot, and publish it in the file header. */
    method CloseSnapshot(truncated: bool)
      requires Valid() && initialized && st.pending.Pending? && st.pending.open.NoStack?
      requires writeOffset + |objects| * MAP_ENTRY_SIZE <= heapStart
      modifies mem, this`writeOffset, this`lastSnapshotPos, this`snapshotCount, this`currentSnapshotPos,
               this`currentStacktraceCount, this`currentFrameCount, this`stacktraceInProgress, this`snapshotInProgress,
               this`objects, this`st, this`snaps
      ensures Valid()
      ensures Stepped(old(st), Op.EndSnapshot(truncated), st, Done)
    {
      hide Inv, Growth, Wrote, Apply, Stepped, SnapUpdate, HeaderUpdate, NewSnap, MapIs, LE, Cat, EncEntry, LastPos;
      ghost var img, c := mem[..], C();
      SnapshotRoom(img, c, snaps, st);
      ghost var entries, img1, img2 := WriteTotals(truncated);
      ResetSnapshotState();
      EndSnapshotKeeps(img, img1, img2, mem[..], c, truncated, entries, snaps, st);
      Applied(st, Op.EndSnapshot(truncated));
      Settle(Op.EndSnapshot(truncated), snaps + [NewSnap(c, snaps, st.pending, truncated, entries)]);
    }

    method WriteTotals(truncated: bool)
      returns (ghost entries: seq<Entry>, ghost img1: seq<Byte>, ghost img2: seq<Byte>)
      requires currentSnapshotPos + SNAPSHOT_HEADER_SIZE <= mem.Length && FILE_HEADER_SIZE <= mem.Length
      requires writeOffset + |objects| * MAP_ENTRY_SIZE <= mem.Length
      modifies mem, this`writeOffset, this`lastSnapshotPos, this`snapshotCount
      ensures MapIs(entries, objects) && |entries| == |objects|
      ensures C() ==
        old(C()).(writeOffset := old(writeOffset) + MAP_ENTRY_SIZE * |entries|, lastSnapshotPos := currentSnapshotPos,
                  snapshotCount := old(snapshotCount) + 1)
      ensures Wrote(old(mem[..]), img1, old(writeOffset), Cat(EncEntry, entries))
      ensures Wrote(img1, img2, currentSnapshotPos + 16,
                    SnapUpdate(currentStacktraceCount, old(writeOffset), |entries|, if truncated then 0x01 else 0))
      ensures Wrote(img2, mem[..], LAST_SNAPSHOT_AT,
                    HeaderUpdate(currentSnapshotPos, old(snapshotCount) + 1, heapStart))
    {
      hide Wrote, SnapUpdate, HeaderUpdate, MapIs;
      var objectMapPos, objectMapCount := writeOffset, |objects|;
      entries := PutObjectMap();
      img1 := mem[..];
      FillSnapshotHeader(currentStacktraceCount, objectMapPos, objectMapCount, if truncated then 0x01 else 0);
      img2 := mem[..];
      lastSnapshotPos := currentSnapshotPos;
      snapshotCount := snapshotCount + 1;
      UpdateHeader();
    }

    method EndStacktrace(truncated: bool, objectDepthTruncated: bool) returns (o: Outcome)
      requires Valid()
      modifies this, mem
      ensures Valid() && initialized == old(initialized) && mem == old(mem) && reader == old(reader)
      ensures !initialized ==> o == Failed(NotInitialized) && st == old(st)
      ensures initialized ==> Stepped(old(st), Op.EndStacktrace(truncated, objectDepthTruncated), st, o)
      ensures initialized ==> Fair(Op.EndStacktrace(truncated, objectDepthTruncated), o)
      ensures SameStack(old(st), old(currentStacktracePos), st, currentStacktracePos)
    {
      hide Inv, Growth, Stepped, Apply;
      if !initialized {
        return Failed(NotInitialized);
      }
      InvFlags(mem[..], C(), snaps, st);
      Refused(st, Op.EndStacktrace(truncated, objectDepthTruncated));
      if !snapshotInProgress {
        return Failed(NoSnapshot);
      }
      if !stacktraceInProgress {
        return Failed(NoStackOpen);
      }
      CloseStacktrace(truncated, objectDepthTruncated);
      o := Done;
    }

    /** Fill in frame count and flags of the open stacktrace. */
    method CloseStacktrace(truncated: bool, objectDepthTruncated: bool)
      requires Valid() && initialized && HasOpenStack(st)
      modifies mem, this`currentStacktraceCount, this`currentStacktracePos, this`currentFrameCount,
               this`stacktraceInProgress, this`st, this`snaps
      ensures Valid()
      ensures Stepped(old(st), Op.EndStacktrace(truncated, objectDepthTruncated), st, Done) && !HasOpenStack(st)
    {
      hide Inv, Growth, Apply, Stepped, Wrote, LE, StackFlags;
      ghost var img, c := mem[..], C();
      StackRoom(img, c, snaps, st);
      ghost var img1 :=
        FillStackHeader(currentStacktracePos, currentFrameCount, StackFlags(truncated, objectDepthTruncated));
      FinishStack();
      EndStackKeeps(img, img1, mem[..], c, truncated, objectDepthTruncated, snaps, st);
      Applied(st, Op.EndStacktrace(truncated, objectDepthTruncated));
      Settle(Op.EndStacktrace(truncated, objectDepthTruncated), snaps);
    }

    /** One stacktrace more, and none open. */
    method FinishStack()
      modifies this`currentStacktraceCount, this`currentStacktracePos, this`currentFrameCount, this`stacktraceInProgress
      ensures C() ==
        old(C()).(stackCount := old(currentStacktraceCount) + 1, stackPos := 0, frameCount := 0, stackOpen := false)
    {
      currentStacktraceCount := currentStacktraceCount + 1;
      currentStacktracePos, currentFrameCount, stacktraceInProgress := 0, 0, false;
    }

    method FillStackHeader(pos: nat, frameCount: nat, flags: Byte) returns (ghost between: seq<Byte>)
      requires pos + STACKTRACE_HEADER_SIZE <= mem.Length
      modifies mem
      ensures Wrote(old(mem[..]), between, pos + 8, LE(frameCount, 4)) && Wrote(between, mem[..], pos + 36, [flags])
    {
      Poke(pos + 8, LE(frameCount, 4));
      between := mem[..];
      Poke(pos + 36, [flags]);
    }

    method DiscardCurrentStacktrace()
      requires Valid() && initialized
      modifies this
      ensures Valid() && initialized
      ensures Stepped(old(st), DiscardStacktrace, st, Done)
      ensures Fair(DiscardStacktrace, Done)
      ensures SameStack(old(st), old(currentStacktracePos), st, currentStacktracePos) && mem == old(mem)
      ensures reader == old(reader)
    {
      hide Inv, Growth, Apply, Stepped;
      InvFlags(mem[..], C(), snaps, st);
      Applied(st, DiscardStacktrace);
      if !stacktraceInProgress {
        return;
      }
      ghost var c := C();
      DropStack();
      DiscardStackKeeps(mem[..], c, snaps, st);
      Settle(DiscardStacktrace, snaps);
    }

    method DropStack()
      modifies this`writeOffset, this`currentStacktracePos, this`currentFrameCount, this`stacktraceInProgress
      ensures C() ==
        old(C()).(writeOffset := old(currentStacktracePos), stackPos := 0, frameCount := 0, stackOpen := false)
    {
      writeOffset := currentStacktracePos;
      currentStacktracePos, currentFrameCount, stacktraceInProgress := 0, 0, false;
    }

    method DiscardCurrentSnapshot()
      requires Valid() && initialized
      modifies this
      ensures Valid() && initialized
      ensures Stepped(old(st), DiscardSnapshot, st, Done)
      ensures Fair(DiscardSnapshot, Done)
      ensures SameStack(old(st), old(currentStacktracePos), st, currentStacktracePos) && mem == old(mem)
      ensures reader == old(reader)
    {
      hide Inv, Growth, Apply, Stepped;
      InvFlags(mem[..], C(), snaps, st);
      Applied(st, DiscardSnapshot);
      if !snapshotInProgress {
        return;
      }
      ghost var c := C();
      DropSnapshot();
      DiscardSnapshotKeeps(mem[..], c, snaps, st);
      Settle(DiscardSnapshot, snaps);
    }

    method DropSnapshot()
      modifies this`writeOffset, this`currentSnapshotPos, this`currentStacktraceCount, this`currentFrameCount,
               this`stacktraceInProgress, this`snapshotInProgress, this`objects
      ensures C() ==
        old(C()).(writeOffset := old(currentSnapshotPos), snapshotPos := 0, stackCount := 0, frameCount := 0,
                  stackOpen := false, snapshotOpen := false)
      ensures objects == map[]
    {
      writeOffset := currentSnapshotPos;
      ResetSnapshotState();
    }

    /** No snapshot is open, and nothing is mapped. */
    method ResetSnapshotState()
      modifies this`currentSnapshotPos, this`currentStacktraceCount, this`currentFrameCount,
               this`stacktraceInProgress, this`snapshotInProgress, this`objects
      ensures C() ==
        old(C()).(snapshotPos := 0, stackCount := 0, frameCount := 0, stackOpen := false, snapshotOpen := false)
      ensures objects == map[]
    {
      currentSnapshotPos, currentStacktraceCount, currentFrameCount := 0, 0, 0;
      stacktraceInProgress, snapshotInProgress := false, false;
      objects := map[];
    }

    // ----------------------------------------------------------------
    // Frames
    // ----------------------------------------------------------------

    /** A length-prefixed string. */
    method PutStr(t: Str)
      requires writeOffset + |EncStr(t)| <= mem.Length
      modifies mem, this`writeOffset
      ensures Wrote(old(mem[..]), mem[..], old(writeOffset), EncStr(t))
      ensures writeOffset == old(writeOffset) + |EncStr(t)|
    {
      ghost var img, at := mem[..], writeOffset;
      Append(LE(|t|, 4));
      ghost var img1 := mem[..];
      if t != [] {
        Append(t);
      } else {
        WroteNothing(img1, writeOffset);
      }
      WroteThen(img, img1, mem[..], at, LE(|t|, 4), t);
    }

    method PutLocal(l: Local)
      requires writeOffset + |EncLocal(l)| <= mem.Length
      modifies mem, this`writeOffset
      ensures Wrote(old(mem[..]), mem[..], old(writeOffset), EncLocal(l))
      ensures writeOffset == old(writeOffset) + |EncLocal(l)|
    {
      hide Wrote, LE;
      ghost var img, at := mem[..], writeOffset;
      Append(U64Bytes(l.pythonId));
      ghost var img1 := mem[..];
      PutStr(l.name);
      WroteThen(img, img1, mem[..], at, U64Bytes(l.pythonId), EncStr(l.name));
    }

    method PutLocals(locals: seq<Local>)
      requires writeOffset + |Cat(EncLocal, locals)| <= mem.Length
      modifies mem, this`writeOffset
      ensures Wrote(old(mem[..]), mem[..], old(writeOffset), Cat(EncLocal, locals))
      ensures writeOffset == old(writeOffset) + |Cat(EncLocal, locals)|
    {
      hide Wrote, EncLocal;
      ghost var img, at := mem[..], writeOffset;
      WroteNothing(img, at);
      for i := 0 to |locals|
        invariant writeOffset == at + |Cat(EncLocal, locals[..i])|
        invariant Wrote(img, mem[..], at, Cat(EncLocal, locals[..i]))
      {
        CatPush(EncLocal, locals, i);
        CatPrefix(EncLocal, locals, i + 1);
        ghost var img1 := mem[..];
        PutLocal(locals[i]);
        WroteThen(img, img1, mem[..], at, Cat(EncLocal, locals[..i]), EncLocal(locals[i]));
      }
      assert locals[..|locals|] == locals;
    }

    /** The strings of a frame record, then its line number and number of locals. */
    method PutFrameHead(f: Frame)
      requires writeOffset + |FrameHead(f)| <= mem.Length
      modifies mem, this`writeOffset
      ensures Wrote(old(mem[..]), mem[..], old(writeOffset), FrameHead(f))
      ensures writeOffset == old(writeOffset) + |FrameHead(f)|
    {
      hide Wrote, EncStr, LE;
      ghost var img, at := mem[..], writeOffset;
      PutStr(f.filePath);
      ghost var img1 := mem[..];
      PutStr(f.functionName);
      ghost var img2 := mem[..];
      WroteThen(img, img1, img2, at, EncStr(f.filePath), EncStr(f.functionName));
      PutStr(f.qualName);
      ghost var img3 := mem[..];
      WroteThen(img, img2, img3, at, EncStr(f.filePath) + EncStr(f.functionName), EncStr(f.qualName));
      Append(U32Bytes(f.line));
      ghost var img4 := mem[..];
      WroteThen(img, img3, img4, at, EncStr(f.filePath) + EncStr(f.functionName) + EncStr(f.qualName),
                U32Bytes(f.line));
      Append(LE(|f.locals|, 4));
      WroteThen(img, img4, mem[..], at,
                EncStr(f.filePath) + EncStr(f.functionName) + EncStr(f.qualName) + U32Bytes(f.line), LE(|f.locals|, 4));
    }

    method PutFrame(f: Frame)
      requires writeOffset + |EncFrame(f)| <= mem.Length
      modifies mem, this`writeOffset
      ensures Wrote(old(mem[..]), mem[..], old(writeOffset), EncFrame(f))
      ensures writeOffset == old(writeOffset) + |EncFrame(f)|
    {
      hide Wrote, FrameHead, Cat;
      FrameInTwo(f);
      ghost var img, at := mem[..], writeOffset;
      PutFrameHead(f);
      ghost var img1 := mem[..];
      PutLocals(f.locals);
      WroteThen(img, img1, mem[..], at, FrameHead(f), Cat(EncLocal, f.locals));
    }

    /** The space a frame record needs, added up as it will be written. */
    static method FrameRecordSize(f: Frame) returns (size: nat)
      ensures size == |EncFrame(f)|
    {
      size := 4 + |f.filePath| + 4 + |f.functionName| + 4 + |f.qualName| + 4 + 4;
      FrameInTwo(f);
      ghost var head := size;
      for i := 0 to |f.locals|
        invariant size == head + |Cat(EncLocal, f.locals[..i])|
      {
        CatPush(EncLocal, f.locals, i);
        size := size + 8 + 4 + |f.locals[i].name|;
      }
      assert f.locals[..|f.locals|] == f.locals;
    }

    method WriteFrameRecord(f: Frame) returns (o: Outcome)
      requires Valid()
      modifies this, mem, reader
      ensures Valid() && initialized == old(initialized) && reader == old(reader) && (mem == old(mem) || fresh(mem))
      ensures !initialized ==> o == Failed(NotInitialized) && st == old(st)
      ensures initialized ==> Stepped(old(st), WriteFrame(f), st, o)
      ensures initialized ==> Fair(WriteFrame(f), o)
      ensures SameStack(old(st), old(currentStacktracePos), st, currentStacktracePos)
      ensures o.Done? && HasOpenStack(old(st)) ==> old(writeOffset) == BeforeLastFrame(C(), st)
    {
      hide Inv, Growth, EncFrame, Stepped, BeforeLastFrame, SnapshotWriter.Afforded, SnapshotWriter.RanOut;
      if !initialized {
        return Failed(NotInitialized);
      }
      InvFlags(mem[..], C(), snaps, st);
      Refused(st, WriteFrame(f));
      NothingMoved(WriteFrame(f));
      if !snapshotInProgress {
        return Failed(NoSnapshot);
      }
      if !stacktraceInProgress {
        return Failed(NoStackOpen);
      }
      o := StoreFrame(f);
    }

    /** Make room for a frame, then write it. */
    method StoreFrame(f: Frame) returns (o: Outcome)
      requires Valid() && initialized && HasOpenStack(st)
      modifies this, mem, reader
      ensures Valid() && initialized && reader == old(reader) && (mem == old(mem) || fresh(mem))
      ensures Stepped(old(st), WriteFrame(f), st, o)
      ensures Fair(WriteFrame(f), o)
      ensures currentStacktracePos == old(currentStacktracePos)
      ensures o.Done? ==> old(writeOffset) == BeforeLastFrame(C(), st)
    {
      hide Inv, Growth, EncFrame, Stepped, Apply, BeforeLastFrame, Refusal;
      hide SnapshotWriter.HasRoom, SnapshotWriter.Lacks, SnapshotWriter.Again, Needed, RecordBytes;
      FrameBytes(st, f);
      var size := FrameRecordSize(f);
      o := ReserveRecords(size, WriteFrame(f));
      if o.Failed? {
        return;
      }
      AddFrame(f);
      o := Done;
    }

    method AddFrame(f: Frame)
      requires Valid() && initialized && HasOpenStack(st)
      requires writeOffset + |EncFrame(f)| <= heapStart
      modifies mem, this`writeOffset, this`currentFrameCount, this`st, this`snaps
      ensures Valid()
      ensures Stepped(old(st), WriteFrame(f), st, Done)
      ensures HasOpenStack(st) && st.pending.open.frames != [] && old(writeOffset) == BeforeLastFrame(C(), st)
    {
      hide Inv, Growth, Wrote, EncFrame, OpenStackBytes, Apply, Stepped, BeforeLastFrame;
      ghost var img, c := mem[..], C();
      InvOrder(img, c, snaps, st);
      InvFlags(img, c, snaps, st);
      PutFrame(f);
      currentFrameCount := currentFrameCount + 1;
      FrameKeeps(img, mem[..], c, f, snaps, st);
      FrameStart(img, c, f, snaps, st);
      SameFrameStart(c, C(), Apply(st, WriteFrame(f)));
      Applied(st, WriteFrame(f));
      Settle(WriteFrame(f), snaps);
    }

    /** Undo the last frame. `savedOffset` is what the write offset was before that frame was written. */
    method RollbackWriteOffset(savedOffset: nat)
      requires Valid() && initialized && Allowed(st, RollbackFrame)
      requires savedOffset == BeforeLastFrame(C(), st)
      modifies this
      ensures Valid() && initialized
      ensures Stepped(old(st), RollbackFrame, st, Done)
      ensures Fair(RollbackFrame, Done)
      ensures SameStack(old(st), old(currentStacktracePos), st, currentStacktracePos) && mem == old(mem)
      ensures reader == old(reader)
    {
      hide Inv, Growth, BeforeLastFrame, Apply, Stepped, Allowed;
      RollbackKeeps(mem[..], C(), snaps, st);
      Applied(st, RollbackFrame);
      StepBack(savedOffset);
      Settle(RollbackFrame, snaps);
    }

    method StepBack(savedOffset: nat)
      modifies this`writeOffset, this`currentFrameCount
      ensures C() == old(C()).(writeOffset := savedOffset,
                               frameCount := if old(currentFrameCount) > 0 then old(currentFrameCount) - 1 else 0)
    {
      writeOffset := savedOffset;
      if currentFrameCount > 0 {
        currentFrameCount := currentFrameCount - 1;
      }
    }

    // ----------------------------------------------------------------
    // Heap objects
    // ----------------------------------------------------------------

    /** Room for a record of `space` bytes. */
    method Reserve(space: nat, ghost rec: Rec) returns (o: Outcome)
      requires Valid() && space == |EncRec(rec)|
      modifies this`mem, this`doublings, this`extensions, this`attempts, reader
      ensures Valid() && (mem == old(mem) || fresh(mem))
      ensures !initialized ==> o == Failed(NotInitialized)
      ensures initialized && o.Failed? ==> Stepped(st, Write(rec), st, o)
      ensures initialized ==> Fair(Write(rec), o)
      ensures o.Done? ==> initialized && heapStart + heapOffset + space <= mem.Length
    {
      hide Inv, Growth, Stepped, EncRec;
      if !initialized {
        return Failed(NotInitialized);
      }
      var ok := EnsureHeapSpace(space);
      if !ok {
        Full(st, Write(rec));
        return Failed(OutOfSpace);
      }
      o := Done;
    }

    /** The record written since `img` is part of the log. */
    ghost method Publish(img: seq<Byte>, c: Counters, rec: Rec)
      requires Shared() && initialized && Inv(img, c, snaps, st)
      requires Growth(mem.Length, doublings, extensions, heapStart, relocations)
      requires st.objects == objects && st.cache == cache
      requires c.heapStart + c.heapOffset + |EncRec(rec)| <= |img|
      requires Wrote(img, mem[..], c.heapStart + c.heapOffset, EncRec(rec))
      requires C() == c.(heapOffset := c.heapOffset + |EncRec(rec)|)
      modifies this`st
      ensures Valid()
      ensures Stepped(old(st), Write(rec), st, Done) && old(st).heapEnd == c.heapOffset < MAX_FILE_SIZE
    {
      hide Inv, Growth, Wrote, EncRec, Stepped, Apply;
      InvFlags(img, c, snaps, st);
      InvOrder(img, c, snaps, st);
      HeapWriteKeeps(img, mem[..], c, rec, snaps, st);
      Applied(st, Write(rec));
      st := Apply(st, Write(rec));
    }

    /** The type byte of a record. */
    method WriteObjectHeader(tag: Byte)
      requires heapStart + heapOffset + 1 <= mem.Length
      modifies mem, this`heapOffset
      ensures Wrote(old(mem[..]), mem[..], heapStart + old(heapOffset), [tag]) && heapOffset == old(heapOffset) + 1
    {
      AppendHeap([tag]);
    }

    method HeapStr(t: Str)
      requires heapStart + heapOffset + |EncStr(t)| <= mem.Length
      modifies mem, this`heapOffset
      ensures Wrote(old(mem[..]), mem[..], heapStart + old(heapOffset), EncStr(t))
      ensures heapOffset == old(heapOffset) + |EncStr(t)|
    {
      ghost var img, at := mem[..], heapStart + heapOffset;
      AppendHeap(LE(|t|, 4));
      ghost var img1 := mem[..];
      if t != [] {
        AppendHeap(t);
      } else {
        WroteNothing(img1, heapStart + heapOffset);
      }
      WroteThen(img, img1, mem[..], at, LE(|t|, 4), t);
    }

    method HeapIds(ids: seq<U64>)
      requires heapStart + heapOffset + |EncIds(ids)| <= mem.Length
      modifies mem, this`heapOffset
      ensures Wrote(old(mem[..]), mem[..], heapStart + old(heapOffset), EncIds(ids))
      ensures heapOffset == old(heapOffset) + |EncIds(ids)|
    {
      hide Wrote, LE;
      ghost var img, at := mem[..], heapStart + heapOffset;
      AppendHeap(LE(|ids|, 4));
      assert LE(|ids|, 4) + Cat(U64Bytes, ids[..0]) == LE(|ids|, 4);
      for i := 0 to |ids|
        invariant heapStart + heapOffset == at + 4 + |Cat(U64Bytes, ids[..i])|
        invariant Wrote(img, mem[..], at, LE(|ids|, 4) + Cat(U64Bytes, ids[..i]))
      {
        CatPush(U64Bytes, ids, i);
        CatPrefix(U64Bytes, ids, i + 1);
        ghost var img1 := mem[..];
        AppendHeap(U64Bytes(ids[i]));
        WroteThen(img, img1, mem[..], at, LE(|ids|, 4) + Cat(U64Bytes, ids[..i]), U64Bytes(ids[i]));
        assert LE(|ids|, 4) + Cat(U64Bytes, ids[..i]) + U64Bytes(ids[i]) == LE(|ids|, 4) + Cat(U64Bytes, ids[..i + 1]);
      }
      assert ids[..|ids|] == ids;
    }

    method HeapPair(p: Pair)
      requires heapStart + heapOffset + 16 <= mem.Length
      modifies mem, this`heapOffset
      ensures Wrote(old(mem[..]), mem[..], heapStart + old(heapOffset), EncPair(p))
      ensures heapOffset == old(heapOffset) + 16
    {
      hide Wrote, LE;
      ghost var img, at := mem[..], heapStart + heapOffset;
      AppendHeap(U64Bytes(p.key));
      ghost var img1 := mem[..];
      AppendHeap(U64Bytes(p.value));
      WroteThen(img, img1, mem[..], at, U64Bytes(p.key), U64Bytes(p.value));
    }

    method HeapPairs(pairs: seq<Pair>)
      requires heapStart + heapOffset + |EncPairs(pairs)| <= mem.Length
      modifies mem, this`heapOffset
      ensures Wrote(old(mem[..]), mem[..], heapStart + old(heapOffset), EncPairs(pairs))
      ensures heapOffset == old(heapOffset) + |EncPairs(pairs)|
    {
      hide Wrote, LE, EncPair;
      ghost var img, at := mem[..], heapStart + heapOffset;
      AppendHeap(LE(|pairs|, 4));
      assert LE(|pairs|, 4) + Cat(EncPair, pairs[..0]) == LE(|pairs|, 4);
      for i := 0 to |pairs|
        invariant heapStart + heapOffset == at + 4 + |Cat(EncPair, pairs[..i])|
        invariant Wrote(img, mem[..], at, LE(|pairs|, 4) + Cat(EncPair, pairs[..i]))
      {
        CatPush(EncPair, pairs, i);
        CatPrefix(EncPair, pairs, i + 1);
        ghost var img1 := mem[..];
        HeapPair(pairs[i]);
        WroteThen(img, img1, mem[..], at, LE(|pairs|, 4) + Cat(EncPair, pairs[..i]), EncPair(pairs[i]));
        assert LE(|pairs|, 4) + Cat(EncPair, pairs[..i]) + EncPair(pairs[i]) ==
          LE(|pairs|, 4) + Cat(EncPair, pairs[..i + 1]);
      }
      assert pairs[..|pairs|] == pairs;
    }

    method HeapMeta(m: Meta)
      requires heapStart + heapOffset + |EncMeta(m)| <= mem.Length
      modifies mem, this`heapOffset
      ensures Wrote(old(mem[..]), mem[..], heapStart + old(heapOffset), EncMeta(m))
      ensures heapOffset == old(heapOffset) + |EncMeta(m)|
    {
      hide Wrote, EncStr, EncPairs;
      ghost var img, at := mem[..], heapStart + heapOffset;
      HeapStr(m.typeName);
      ghost var img1 := mem[..];
      HeapStr(m.repr);
      ghost var img2 := mem[..];
      WroteThen(img, img1, img2, at, EncStr(m.typeName), EncStr(m.repr));
      HeapPairs(m.attrs);
      WroteThen(img, img2, mem[..], at, EncStr(m.typeName) + EncStr(m.repr), EncPairs(m.attrs));
    }

    method PutWord(tag: Byte, word: U64)
      requires heapStart + heapOffset + 9 <= mem.Length
      modifies mem, this`heapOffset
      ensures Wrote(old(mem[..]), mem[..], heapStart + old(heapOffset), [tag] + U64Bytes(word))
      ensures heapOffset == old(heapOffset) + 9
    {
      hide Wrote, LE;
      ghost var img, at := mem[..], heapStart + heapOffset;
      WriteObjectHeader(tag);
      ghost var img1 := mem[..];
      AppendHeap(U64Bytes(word));
      WroteThen(img, img1, mem[..], at, [tag], U64Bytes(word));
    }

    method WriteInt64(value: I64) returns (o: Outcome, offset: nat)
      requires Valid()
      modifies this, mem, reader
      ensures WroteRecord(Int64(value), o, offset)
    {
      hide Inv, Growth, Wrote, EncRec, Stepped, U64Bytes, SnapshotWriter.Afforded, SnapshotWriter.RanOut;
      ghost var rec := Int64(value);
      Int64Bytes(value);
      o := Reserve(9, rec);
      offset := heapOffset;
      if o.Failed? {
        return;
      }
      ghost var img, c := mem[..], C();
      PutWord(0, I64Word(value));
      Publish(img, c, rec);
    }

    method WriteFloat(bits: U64) returns (o: Outcome, offset: nat)
      requires Valid()
      modifies this, mem, reader
      ensures WroteRecord(Float(bits), o, offset)
    {
      hide Inv, Growth, Wrote, EncRec, Stepped, U64Bytes, SnapshotWriter.Afforded, SnapshotWriter.RanOut;
      ghost var rec := Float(bits);
      FloatBytes(bits);
      o := Reserve(9, rec);
      offset := heapOffset;
      if o.Failed? {
        return;
      }
      ghost var img, c := mem[..], C();
      PutWord(1, bits);
      Publish(img, c, rec);
    }

    method PutText(tag: Byte, t: Str)
      requires heapStart + heapOffset + 1 + |EncStr(t)| <= mem.Length
      modifies mem, this`heapOffset
      ensures Wrote(old(mem[..]), mem[..], heapStart + old(heapOffset), [tag] + EncStr(t))
      ensures heapOffset == old(heapOffset) + 1 + |EncStr(t)|
    {
      hide Wrote, EncStr;
      ghost var img, at := mem[..], heapStart + heapOffset;
      WriteObjectHeader(tag);
      ghost var img1 := mem[..];
      HeapStr(t);
      WroteThen(img, img1, mem[..], at, [tag], EncStr(t));
    }

    /** The shared body of the writers of strings, bytes and big integers. */
    method WriteText(kind: TextKind, t: Str) returns (o: Outcome, offset: nat)
      requires Valid()
      modifies this, mem, reader
      ensures WroteRecord(Text(kind, t), o, offset)
    {
      hide Inv, Growth, Wrote, Stepped, EncStr, EncRec, SnapshotWriter.Afforded, SnapshotWriter.RanOut;
      ghost var rec := Text(kind, t);
      TextBytes(kind, t);
      o := Reserve(1 + 4 + |t|, rec);
      offset := heapOffset;
      if o.Failed? {
        return;
      }
      ghost var img, c := mem[..], C();
      PutText(if kind == StringText then 2 else if kind == BytesText then 3 else 8, t);
      Publish(img, c, rec);
    }

    method WriteString(t: Str) returns (o: Outcome, offset: nat)
      requires Valid()
      modifies this, mem, reader
      ensures WroteRecord(Text(StringText, t), o, offset)
    {
      o, offset := WriteText(StringText, t);
    }

    method WriteBytes(t: Str) returns (o: Outcome, offset: nat)
      requires Valid()
      modifies this, mem, reader
      ensures WroteRecord(Text(BytesText, t), o, offset)
    {
      o, offset := WriteText(BytesText, t);
    }

    method PutIds(tag: Byte, ids: seq<U64>)
      requires heapStart + heapOffset + 1 + |EncIds(ids)| <= mem.Length
      modifies mem, this`heapOffset
      ensures Wrote(old(mem[..]), mem[..], heapStart + old(heapOffset), [tag] + EncIds(ids))
      ensures heapOffset == old(heapOffset) + 1 + |EncIds(ids)|
    {
      hide Wrote, EncIds;
      ghost var img, at := mem[..], heapStart + heapOffset;
      WriteObjectHeader(tag);
      ghost var img1 := mem[..];
      HeapIds(ids);
      WroteThen(img, img1, mem[..], at, [tag], EncIds(ids));
    }

    method PutPairs(tag: Byte, pairs: seq<Pair>)
      requires heapStart + heapOffset + 1 + |EncPairs(pairs)| <= mem.Length
      modifies mem, this`heapOffset
      ensures Wrote(old(mem[..]), mem[..], heapStart + old(heapOffset), [tag] + EncPairs(pairs))
      ensures heapOffset == old(heapOffset) + 1 + |EncPairs(pairs)|
    {
      hide Wrote, EncPairs;
      ghost var img, at := mem[..], heapStart + heapOffset;
      WriteObjectHeader(tag);
      ghost var img1 := mem[..];
      HeapPairs(pairs);
      WroteThen(img, img1, mem[..], at, [tag], EncPairs(pairs));
    }

    /** Type name, representation and attributes behind what has been written since `img`. */
    method PutMeta(ghost img: seq<Byte>, ghost at: nat, ghost front: seq<Byte>, m: Meta)
      requires Wrote(img, mem[..], at, front) && at + |front| == heapStart + heapOffset
      requires heapStart + heapOffset + |EncMeta(m)| <= mem.Length
      modifies mem, this`heapOffset
      ensures Wrote(img, mem[..], at, front + EncMeta(m)) && heapOffset == old(heapOffset) + |EncMeta(m)|
    {
      hide Wrote, EncMeta;
      ghost var img1 := mem[..];
      HeapMeta(m);
      WroteThen(img, img1, mem[..], at, front, EncMeta(m));
    }

    method WriteSequence(kind: SeqKind, ids: seq<U64>) returns (o: Outcome, offset: nat)
      requires Valid()
      modifies this, mem, reader
      ensures WroteRecord(Elems(kind, ids), o, offset)
    {
      hide Inv, Growth, Wrote, Stepped, EncIds, EncRec, SnapshotWriter.Afforded, SnapshotWriter.RanOut;
      ghost var rec := Elems(kind, ids);
      ElemsBytes(kind, ids);
      o := Reserve(1 + 4 + |ids| * 8, rec);
      offset := heapOffset;
      if o.Failed? {
        return;
      }
      ghost var img, c := mem[..], C();
      PutIds(if kind == ListKind then 4 else if kind == TupleKind then 5 else 7, ids);
      Publish(img, c, rec);
    }

    method WriteDict(pairs: seq<Pair>) returns (o: Outcome, offset: nat)
      requires Valid()
      modifies this, mem, reader
      ensures WroteRecord(Dict(pairs), o, offset)
    {
      hide Inv, Growth, Wrote, Stepped, EncPairs, EncRec, SnapshotWriter.Afforded, SnapshotWriter.RanOut;
      ghost var rec := Dict(pairs);
      DictBytes(pairs);
      o := Reserve(1 + 4 + |pairs| * 2 * 8, rec);
      offset := heapOffset;
      if o.Failed? {
        return;
      }
      ghost var img, c := mem[..], C();
      PutPairs(6, pairs);
      Publish(img, c, rec);
    }

    method PutSerObject(m: Meta)
      requires heapStart + heapOffset + |EncRec(SerObject(m))| <= mem.Length
      modifies mem, this`heapOffset
      ensures Wrote(old(mem[..]), mem[..], heapStart + old(heapOffset), EncRec(SerObject(m)))
      ensures heapOffset == old(heapOffset) + |EncRec(SerObject(m))|
    {
      hide Wrote, EncMeta, EncRec;
      SerObjectBytes(m);
      ghost var img, at := mem[..], heapStart + heapOffset;
      WriteObjectHeader(9);
      PutMeta(img, at, [9], m);
    }

    method WriteSerializedObject(m: Meta) returns (o: Outcome, offset: nat)
      requires Valid()
      modifies this, mem, reader
      ensures WroteRecord(SerObject(m), o, offset)
    {
      hide Inv, Growth, Wrote, Stepped, EncMeta, EncRec, SnapshotWriter.Afforded, SnapshotWriter.RanOut;
      ghost var rec := SerObject(m);
      SerObjectBytes(m);
      o := Reserve(1 + 4 + |m.typeName| + 4 + |m.repr| + 4 + |m.attrs| * 2 * 8, rec);
      offset := heapOffset;
      if o.Failed? {
        return;
      }
      ghost var img, c := mem[..], C();
      PutSerObject(m);
      Publish(img, c, rec);
    }

    method PutSerElems(kind: SeqKind, ids: seq<U64>, m: Meta)
      requires heapStart + heapOffset + |EncRec(SerElems(kind, ids, m))| <= mem.Length
      modifies mem, this`heapOffset
      ensures Wrote(old(mem[..]), mem[..], heapStart + old(heapOffset), EncRec(SerElems(kind, ids, m)))
      ensures heapOffset == old(heapOffset) + |EncRec(SerElems(kind, ids, m))|
    {
      hide Wrote, EncMeta, EncIds, EncRec;
      SerElemsBytes(kind, ids, m);
      ghost var img, at := mem[..], heapStart + heapOffset;
      var tag: Byte := if kind == ListKind then 10 else if kind == SetKind then 11 else 12;
      PutIds(tag, ids);
      PutMeta(img, at, [tag] + EncIds(ids), m);
    }

    method WriteSerializedSequence(kind: SeqKind, ids: seq<U64>, m: Meta) returns (o: Outcome, offset: nat)
      requires Valid()
      modifies this, mem, reader
      ensures WroteRecord(SerElems(kind, ids, m), o, offset)
    {
      hide Inv, Growth, Wrote, Stepped, EncMeta, EncIds, EncRec, SnapshotWriter.Afforded, SnapshotWriter.RanOut;
      ghost var rec := SerElems(kind, ids, m);
      SerElemsBytes(kind, ids, m);
      o := Reserve(1 + 4 + |ids| * 8 + 4 + |m.typeName| + 4 + |m.repr| + 4 + |m.attrs| * 2 * 8, rec);
      offset := heapOffset;
      if o.Failed? {
        return;
      }
      ghost var img, c := mem[..], C();
      PutSerElems(kind, ids, m);
      Publish(img, c, rec);
    }

    method PutSerDict(pairs: seq<Pair>, m: Meta)
      requires heapStart + heapOffset + |EncRec(SerDict(pairs, m))| <= mem.Length
      modifies mem, this`heapOffset
      ensures Wrote(old(mem[..]), mem[..], heapStart + old(heapOffset), EncRec(SerDict(pairs, m)))
      ensures heapOffset == old(heapOffset) + |EncRec(SerDict(pairs, m))|
    {
      hide Wrote, EncMeta, EncPairs, EncRec;
      SerDictBytes(pairs, m);
      ghost var img, at := mem[..], heapStart + heapOffset;
      PutPairs(13, pairs);
      PutMeta(img, at, [13] + EncPairs(pairs), m);
    }

    method WriteSerializedDict(pairs: seq<Pair>, m: Meta) returns (o: Outcome, offset: nat)
      requires Valid()
      modifies this, mem, reader
      ensures WroteRecord(SerDict(pairs, m), o, offset)
    {
      hide Inv, Growth, Wrote, Stepped, EncMeta, EncPairs, EncRec, SnapshotWriter.Afforded, SnapshotWriter.RanOut;
      ghost var rec := SerDict(pairs, m);
      SerDictBytes(pairs, m);
      o := Reserve(1 + 4 + |pairs| * 2 * 8 + 4 + |m.typeName| + 4 + |m.repr| + 4 + |m.attrs| * 2 * 8, rec);
      offset := heapOffset;
      if o.Failed? {
        return;
      }
      ghost var img, c := mem[..], C();
      PutSerDict(pairs, m);
      Publish(img, c, rec);
    }

    // ----------------------------------------------------------------
    // Object tables
    // ----------------------------------------------------------------

    method TryLookupObject(pythonId: U64) returns (found: bool, offset: U64)
      requires Valid() && initialized
      ensures found <==> pythonId in st.objects
      ensures found ==> offset == st.objects[pythonId] && GoodOffset(st, offset)
    {
      hide Inv, Growth;
      TablesKept(mem[..], C(), snaps, st);
      found := pythonId in objects;
      offset := if found then objects[pythonId] else 0;
    }

    /** The cached offset of an unchanged object, or 0. An object at offset 0 is taken for a miss and written again. */
    method LookupObjectWithHash(pythonId: U64, identityHash: U64) returns (offset: U64)
      requires Valid() && initialized
      ensures offset != 0 ==>
        pythonId in st.cache && st.cache[pythonId] == CacheEntry(offset, identityHash) && GoodOffset(st, offset)
      ensures offset == 0 ==>
        pythonId !in st.cache || st.cache[pythonId].identityHash != identityHash || st.cache[pythonId].offset == 0
    {
      hide Inv, Growth;
      TablesKept(mem[..], C(), snaps, st);
      if pythonId in cache && cache[pythonId].identityHash == identityHash {
        return cache[pythonId].offset;
      }
      offset := 0;
    }

    method RegisterObject(pythonId: U64, offset: U64)
      requires Valid() && initialized && GoodOffset(st, offset)
      modifies this`objects, this`st, this`snaps
      ensures Valid()
      ensures st == Apply(old(st), Register(pythonId, offset)) && Fair(Register(pythonId, offset), Done)
    {
      hide Inv, Growth, Apply, GoodOffset;
      RegisterKeeps(mem[..], C(), snaps, st, Register(pythonId, offset));
      Registered(st, pythonId, offset);
      objects := objects[pythonId := offset];
      Settle(Register(pythonId, offset), snaps);
    }

    method RegisterObjectWithBothCaches(pythonId: U64, offset: U64, identityHash: U64)
      requires Valid() && initialized && GoodOffset(st, offset)
      modifies this`objects, this`cache, this`st, this`snaps
      ensures Valid()
      ensures st == Apply(old(st), RegisterBoth(pythonId, offset, identityHash))
      ensures Fair(RegisterBoth(pythonId, offset, identityHash), Done)
    {
      hide Inv, Growth, Apply, GoodOffset;
      RegisterKeeps(mem[..], C(), snaps, st, RegisterBoth(pythonId, offset, identityHash));
      RegisteredBoth(st, pythonId, offset, identityHash);
      objects := objects[pythonId := offset];
      cache := cache[pythonId := CacheEntry(offset, identityHash)];
      Settle(RegisterBoth(pythonId, offset, identityHash), snaps);
    }

    /** The outcome of every object writer: the record is at the offset returned, which was the end of the heap. */
    twostate predicate WroteRecord(rec: Rec, o: Outcome, offset: nat)
      reads this, mem, reader
    {
      && Valid() && initialized == old(initialized) && reader == old(reader) && (mem == old(mem) || fresh(mem))
      && (!initialized ==> o == Failed(NotInitialized) && st == old(st))
      && (initialized ==> Stepped(old(st), Write(rec), st, o) && Fair(Write(rec), o))
      && (o.Done? ==> offset == old(st).heapEnd < MAX_FILE_SIZE)
      && currentStacktracePos == old(currentStacktracePos)
    }
  }

  function FrameHead(f: Frame): seq<Byte> {
    EncStr(f.filePath) + EncStr(f.functionName) + EncStr(f.qualName) + U32Bytes(f.line) + LE(|f.locals|, 4)
  }

  lemma FrameInTwo(f: Frame)
    ensures EncFrame(f) == FrameHead(f) + Cat(EncLocal, f.locals)
    ensures |FrameHead(f)| == |f.filePath| + |f.functionName| + |f.qualName| + 20
  {
  }

  lemma Int64Bytes(value: I64)
    ensures EncRec(Int64(value)) == [0] + U64Bytes(I64Word(value)) && |EncRec(Int64(value))| == 9
  {
  }

  lemma FloatBytes(bits: U64)
    ensures EncRec(Float(bits)) == [1] + U64Bytes(bits) && |EncRec(Float(bits))| == 9
  {
  }

  lemma IdsSize(ids: seq<U64>)
    ensures |EncIds(ids)| == 4 + |ids| * 8
  {
    CatFixed(U64Bytes, ids, 8);
  }

  lemma PairsSize(pairs: seq<Pair>)
    ensures |EncPairs(pairs)| == 4 + |pairs| * 2 * 8
  {
    CatFixed(EncPair, pairs, 16);
  }

  lemma MetaSize(m: Meta)
    ensures |EncMeta(m)| == 4 + |m.typeName| + 4 + |m.repr| + 4 + |m.attrs| * 2 * 8
  {
    PairsSize(m.attrs);
  }

  lemma TextBytes(kind: TextKind, t: Str)
    ensures EncRec(Text(kind, t)) == [if kind == StringText then 2 else if kind == BytesText then 3 else 8] + EncStr(t)
    ensures |EncStr(t)| == 4 + |t|
  {
  }

  lemma ElemsBytes(kind: SeqKind, ids: seq<U64>)
    ensures EncRec(Elems(kind, ids)) ==
      [if kind == ListKind then 4 else if kind == TupleKind then 5 else 7] + EncIds(ids)
    ensures |EncIds(ids)| == 4 + |ids| * 8
  {
    IdsSize(ids);
  }

  lemma DictBytes(pairs: seq<Pair>)
    ensures EncRec(Dict(pairs)) == [6] + EncPairs(pairs) && |EncPairs(pairs)| == 4 + |pairs| * 2 * 8
  {
    PairsSize(pairs);
  }

  lemma SerObjectBytes(m: Meta)
    ensures EncRec(SerObject(m)) == [9] + EncMeta(m)
    ensures |EncMeta(m)| == 4 + |m.typeName| + 4 + |m.repr| + 4 + |m.attrs| * 2 * 8
  {
    MetaSize(m);
  }

  lemma SerElemsBytes(kind: SeqKind, ids: seq<U64>, m: Meta)
    ensures EncRec(SerElems(kind, ids, m)) ==
      [if kind == ListKind then 10 else if kind == SetKind then 11 else 12] + EncIds(ids) + EncMeta(m)
    ensures |EncIds(ids)| == 4 + |ids| * 8
    ensures |EncMeta(m)| == 4 + |m.typeName| + 4 + |m.repr| + 4 + |m.attrs| * 2 * 8
  {
    IdsSize(ids);
    MetaSize(m);
  }

  lemma SerDictBytes(pairs: seq<Pair>, m: Meta)
    ensures EncRec(SerDict(pairs, m)) == [13] + EncPairs(pairs) + EncMeta(m)
    ensures |EncPairs(pairs)| == 4 + |pairs| * 2 * 8
    ensures |EncMeta(m)| == 4 + |m.typeName| + 4 + |m.repr| + 4 + |m.attrs| * 2 * 8
  {
    PairsSize(pairs);
    MetaSize(m);
  }

  lemma Registered(s: State, id: U64, offset: U64)
    requires GoodOffset(s, offset)
    ensures Apply(s, Register(id, offset)) == s.(objects := s.objects[id := offset])
  {
  }

  lemma RegisteredBoth(s: State, id: U64, offset: U64, h: U64)
    requires GoodOffset(s, offset)
    ensures Apply(s, RegisterBoth(id, offset, h)) ==
      s.(objects := s.objects[id := offset], cache := s.cache[id := CacheEntry(offset, h)])
  {
  }

  lemma TablesKept(img: seq<Byte>, c: Counters, snaps: seq<Snap>, s: State)
    requires Inv(img, c, snaps, s)
    ensures TablesGood(s)
  {
    Parts(img, c, snaps, s);
  }

  lemma RegisterKeeps(img: seq<Byte>, c: Counters, snaps: seq<Snap>, s: State, op: Op)
    requires Inv(img, c, snaps, s) && Allowed(s, op) && (op.Register? || op.RegisterBoth?)
    ensures Inv(img, c, snaps, Apply(s, op))
  {
    hide HeaderOk, HeapOk, CommittedOk, PendingOk, TablesGood, InOrder;
    Parts(img, c, snaps, s);
    StepKeepsTables(s, op, false);
    Parts(img, c, snaps, Apply(s, op));
  }

  lemma StackRoom(img: seq<Byte>, c: Counters, snaps: seq<Snap>, s: State)
    requires Inv(img, c, snaps, s) && HasOpenStack(s)
    ensures c.stackPos + STACKTRACE_HEADER_SIZE <= |img|
  {
    InvOrder(img, c, snaps, s);
    InvBounds(img, c, snaps, s);
  }

  lemma SnapshotRoom(img: seq<Byte>, c: Counters, snaps: seq<Snap>, s: State)
    requires Inv(img, c, snaps, s) && s.pending.Pending? && s.pending.open.NoStack?
    ensures c.snapshotPos + SNAPSHOT_HEADER_SIZE <= c.heapStart <= |img| && FILE_HEADER_SIZE <= |img|
    ensures !c.stackOpen && c.frameCount == 0
  {
    InvOrder(img, c, snaps, s);
    InvFlags(img, c, snaps, s);
    InvBounds(img, c, snaps, s);
  }

  ghost function FreshCounters(): Counters {
    Counters(RECORDS_START, RECORDS_START + INITIAL_RECORDS_SIZE, 0, 0, 0, false, 0, 0, false, 0, 0)
  }

  lemma FreshGrowth()
    ensures Growth(INITIAL_FILE_SIZE, 0, 0, FreshCounters().heapStart, 0)
  {
  }

  lemma FreshInv(img: seq<Byte>, c: Counters)
    requires |img| == INITIAL_FILE_SIZE && c == FreshCounters() && HeaderOk(img, c)
    ensures Inv(img, c, [], Empty)
  {
    Parts(img, c, [], Empty);
  }

  lemma RecordRoom(img: seq<Byte>, c: Counters, snaps: seq<Snap>, s: State)
    requires Inv(img, c, snaps, s)
    ensures c.heapStart <= |img| && c.lastSnapshotPos == LastPos(snaps)
    ensures s.pending.Idle? ==> !c.stackOpen && c.frameCount == 0
  {
    InvOrder(img, c, snaps, s);
    InvFlags(img, c, snaps, s);
  }

  /** The write offset before a frame is where that frame starts. */
  lemma FrameStart(img: seq<Byte>, c: Counters, f: Frame, snaps: seq<Snap>, s: State)
    requires Inv(img, c, snaps, s) && HasOpenStack(s)
    ensures
      var s' := Apply(s, WriteFrame(f));
      HasOpenStack(s') && s'.pending.open.frames != [] && BeforeLastFrame(c, s') == c.writeOffset
  {
    hide At, HeaderOk, HeapOk, CommittedOk, TablesGood, OpenStackBytes;
    Parts(img, c, snaps, s);
    var frames := s.pending.open.frames;
    assert (frames + [f])[..|frames|] == frames;
  }

  lemma SameFrameStart(c: Counters, c': Counters, s: State)
    requires HasOpenStack(s) && s.pending.open.frames != [] && c.stackPos == c'.stackPos
    ensures BeforeLastFrame(c, s) == BeforeLastFrame(c', s)
  {
  }

  lemma WroteNothing(img: seq<Byte>, pos: nat)
    requires pos <= |img|
    ensures Wrote(img, img, pos, [])
  {
  }
}
