/**
 * The reader. Every method is told, as a ghost argument, the value whose encoding sits where it
 * reads, and returns exactly that value: reading is the inverse of the encodings of module Format.
 */
module Reading {
  import opened Bytes
  import opened Format
  import opened Layout

  datatype Option<+T> = None | Some(value: T)

  datatype FileHeader = FileHeader(
    magic: U32, version: U32, lastSnapshotPos: U64, snapshotCount: U32, heapPos: U64,
    fileTablePos: U64, fileTableCount: U32, envPos: U64, envSize: U64, manifestPos: U64, manifestSize: U64,
    metadataPos: U64, metadataSize: U64, statsPos: U64, statsCount: U32)

  /** A snapshot as the reader hands it out: stacktraces by id, objects by Python id. */
  datatype Snapshot = Snapshot(
    timestamp: U64, prevSnapshotPos: U64, position: U64, stacktraces: map<U64, Stack>, objectMap: map<U64, U64>,
      truncated: bool)

  /** The stacktraces by id; of two with the same id the later one wins. */
  function ById(stacks: seq<Stack>): map<U64, Stack> {
    if stacks == [] then map[] else
      var last := stacks[|stacks| - 1];
      ById(stacks[..|stacks| - 1])[last.info.id := last]
  }

  function MapOf(entries: seq<Entry>): map<U64, U64> {
    if entries == [] then map[] else
      var last := entries[|entries| - 1];
      MapOf(entries[..|entries| - 1])[last.pythonId := last.offset]
  }

  function View(s: Snap): Snapshot {
    Snapshot(s.timestamp, s.prev, s.pos, ById(s.stacks), MapOf(s.entries), s.truncated)
  }

  /** With distinct ids no stacktrace shadows another. */
  lemma {:induction false} ByIdKeepsAll(stacks: seq<Stack>)
    requires forall i, j :: 0 <= i < j < |stacks| ==> stacks[i].info.id != stacks[j].info.id
    ensures forall i :: 0 <= i < |stacks| ==>
      stacks[i].info.id in ById(stacks) && ById(stacks)[stacks[i].info.id] == stacks[i]
    ensures forall id :: id in ById(stacks) ==> exists i :: 0 <= i < |stacks| && stacks[i].info.id == id
  {
    if stacks != [] {
      var n := |stacks| - 1;
      var before := stacks[..n];
      ByIdKeepsAll(before);
      ByIdNext(stacks);
      forall i | 0 <= i < |stacks|
        ensures stacks[i].info.id in ById(stacks) && ById(stacks)[stacks[i].info.id] == stacks[i]
      {
        if i < n {
          assert before[i] == stacks[i];
        }
      }
      ByIdOnly(stacks);
    }
  }

  lemma ByIdNext(stacks: seq<Stack>)
    requires stacks != []
    ensures
      var n := |stacks| - 1;
      ById(stacks) == ById(stacks[..n])[stacks[n].info.id := stacks[n]]
  {
  }

  lemma {:induction false} ByIdOnly(stacks: seq<Stack>)
    ensures forall id :: id in ById(stacks) ==> exists i :: 0 <= i < |stacks| && stacks[i].info.id == id
  {
    if stacks != [] {
      var n := |stacks| - 1;
      var before := stacks[..n];
      ByIdOnly(before);
      ByIdNext(stacks);
      forall id | id in ById(stacks) ensures exists i :: 0 <= i < |stacks| && stacks[i].info.id == id {
        if id == stacks[n].info.id {
          assert stacks[n].info.id == id;
        } else {
          var i :| 0 <= i < |before| && before[i].info.id == id;
          assert stacks[i].info.id == id;
        }
      }
    }
  }

  predicate HasTruncatedFlag(flags: Byte) {
    flags % 2 == 1
  }

  predicate HasDepthFlag(flags: Byte) {
    flags / 2 % 2 == 1
  }

  lemma {:induction false} FromLEBound(s: seq<Byte>)
    ensures FromLE(s) < Pow256(|s|)
  {
    if s != [] {
      FromLEBound(s[1..]);
    }
  }

  /** A bounds-checked read: zero outside the image. */
  ghost function WordAt(img: seq<Byte>, offset: nat, width: nat): nat {
    if offset + width > |img| then 0 else FromLE(img[offset..offset + width])
  }

  method ReadU32(img: seq<Byte>, offset: nat) returns (v: U32)
    ensures v == WordAt(img, offset, 4)
  {
    if offset + 4 > |img| {
      return 0;
    }
    FromLEBound(img[offset..offset + 4]);
    PowersOf256();
    v := FromLE(img[offset..offset + 4]);
  }

  method ReadU64(img: seq<Byte>, offset: nat) returns (v: U64)
    ensures v == WordAt(img, offset, 8)
  {
    if offset + 8 > |img| {
      return 0;
    }
    FromLEBound(img[offset..offset + 8]);
    PowersOf256();
    v := FromLE(img[offset..offset + 8]);
  }

  method ReadString(img: seq<Byte>, offset: nat, length: U32) returns (s: Str)
    ensures s == if offset + length > |img| then [] else img[offset..offset + length]
  {
    if length == 0 {
      return [];
    }
    if offset + length > |img| {
      return [];
    }
    s := img[offset..offset + length];
  }

  method GetHeader(img: seq<Byte>) returns (h: FileHeader)
    ensures h.magic == WordAt(img, 0, 4) && h.version == WordAt(img, VERSION_AT, 4)
    ensures h.lastSnapshotPos == WordAt(img, LAST_SNAPSHOT_AT, 8)
    ensures h.snapshotCount == WordAt(img, SNAPSHOT_COUNT_AT, 4)
    ensures h.heapPos == WordAt(img, HEAP_POS_AT, 8)
    ensures h.fileTablePos == WordAt(img, FILE_TABLE_POS_AT, 8)
    ensures h.fileTableCount == WordAt(img, FILE_TABLE_COUNT_AT, 4)
    ensures h.envPos == WordAt(img, ENV_POS_AT, 8) && h.envSize == WordAt(img, ENV_SIZE_AT, 8)
    ensures h.manifestPos == WordAt(img, MANIFEST_POS_AT, 8) && h.manifestSize == WordAt(img, MANIFEST_SIZE_AT, 8)
    ensures h.metadataPos == WordAt(img, METADATA_POS_AT, 8) && h.metadataSize == WordAt(img, METADATA_SIZE_AT, 8)
    ensures h.statsPos == WordAt(img, STATS_POS_AT, 8) && h.statsCount == WordAt(img, STATS_COUNT_AT, 4)
  {
    var magic := ReadU32(img, 0);
    var version := ReadU32(img, VERSION_AT);
    var last := ReadU64(img, LAST_SNAPSHOT_AT);
    var count := ReadU32(img, SNAPSHOT_COUNT_AT);
    var heap := ReadU64(img, HEAP_POS_AT);
    var table := ReadU64(img, FILE_TABLE_POS_AT);
    var tableCount := ReadU32(img, FILE_TABLE_COUNT_AT);
    var env := ReadU64(img, ENV_POS_AT);
    var envSize := ReadU64(img, ENV_SIZE_AT);
    var manifest := ReadU64(img, MANIFEST_POS_AT);
    var manifestSize := ReadU64(img, MANIFEST_SIZE_AT);
    var metadata := ReadU64(img, METADATA_POS_AT);
    var metadataSize := ReadU64(img, METADATA_SIZE_AT);
    var stats := ReadU64(img, STATS_POS_AT);
    var statsCount := ReadU32(img, STATS_COUNT_AT);
    h := FileHeader(magic, version, last, count, heap, table, tableCount, env, envSize,
                    manifest, manifestSize, metadata, metadataSize, stats, statsCount);
  }

  // ----------------------------------------------------------------
  // Pieces shared by several record kinds
  // ----------------------------------------------------------------

  /** A word the image is known to hold. */
  method Expect32(img: seq<Byte>, offset: nat, ghost n: nat) returns (v: U32)
    requires n < 0x1_0000_0000 && At(img, offset, LE(n, 4))
    ensures v == n
  {
    v := ReadU32(img, offset);
    AtWord32(img, offset, n);
  }

  method Expect64(img: seq<Byte>, offset: nat, ghost n: nat) returns (v: U64)
    requires n < 0x1_0000_0000_0000_0000 && At(img, offset, LE(n, 8))
    ensures v == n
  {
    v := ReadU64(img, offset);
    AtWord64(img, offset, n);
  }

  /** A length-prefixed string. */
  method ReadSizedString(img: seq<Byte>, offset: nat, ghost t: Str) returns (s: Str, next: nat)
    requires At(img, offset, EncStr(t))
    ensures s == t && next == offset + |EncStr(t)|
  {
    AtSplit(img, offset, LE(|t|, 4), t);
    var length := Expect32(img, offset, |t|);
    s := ReadString(img, offset + 4, length);
    next := offset + 4 + length;
  }

  method ReadIds(img: seq<Byte>, offset: nat, ghost ids: seq<U64>) returns (r: seq<U64>, next: nat)
    requires |img| <= MAX_FILE_SIZE && At(img, offset, EncIds(ids))
    ensures r == ids && next == offset + |EncIds(ids)|
  {
    AtSplit(img, offset, LE(|ids|, 4), Cat(U64Bytes, ids));
    IdsFit(ids);
    var count := Expect32(img, offset, |ids|);
    next := offset + 4;
    r := [];
    for i := 0 to count
      invariant r == ids[..i]
      invariant next == offset + 4 + |Cat(U64Bytes, ids[..i])|
    {
      CatAt(img, offset + 4, U64Bytes, ids, i);
      var id := Expect64(img, next, ids[i]);
      r := r + [id];
      next := next + 8;
    }
    assert ids[..count] == ids;
  }

  method ReadPair(img: seq<Byte>, offset: nat, ghost p: Pair) returns (r: Pair)
    requires At(img, offset, EncPair(p))
    ensures r == p
  {
    AtSplit(img, offset, U64Bytes(p.key), U64Bytes(p.value));
    hide At;
    var key := Expect64(img, offset, p.key);
    var value := Expect64(img, offset + 8, p.value);
    r := Pair(key, value);
  }

  method ReadPairs(img: seq<Byte>, offset: nat, ghost pairs: seq<Pair>) returns (r: seq<Pair>, next: nat)
    requires |img| <= MAX_FILE_SIZE && At(img, offset, EncPairs(pairs))
    ensures r == pairs && next == offset + |EncPairs(pairs)|
  {
    AtSplit(img, offset, LE(|pairs|, 4), Cat(EncPair, pairs));
    PairsFit(pairs);
    var count := Expect32(img, offset, |pairs|);
    next := offset + 4;
    r := [];
    for i := 0 to count
      invariant r == pairs[..i]
      invariant next == offset + 4 + |Cat(EncPair, pairs[..i])|
    {
      CatAt(img, offset + 4, EncPair, pairs, i);
      var pair := ReadPair(img, next, pairs[i]);
      r := r + [pair];
      next := next + 16;
    }
    assert pairs[..count] == pairs;
  }

  method ReadMeta(img: seq<Byte>, offset: nat, ghost m: Meta) returns (r: Meta, next: nat)
    requires |img| <= MAX_FILE_SIZE && At(img, offset, EncMeta(m))
    ensures r == m && next == offset + |EncMeta(m)|
  {
    AtSplit(img, offset, EncStr(m.typeName) + EncStr(m.repr), EncPairs(m.attrs));
    AtSplit(img, offset, EncStr(m.typeName), EncStr(m.repr));
    var typeName, repr, attrs;
    typeName, next := ReadSizedString(img, offset, m.typeName);
    repr, next := ReadSizedString(img, next, m.repr);
    attrs, next := ReadPairs(img, next, m.attrs);
    r := Meta(typeName, repr, attrs);
  }

  // ----------------------------------------------------------------
  // Heap objects
  // ----------------------------------------------------------------

  method ReadObject(img: seq<Byte>, offset: U64, ghost heap: U64, ghost r: Rec) returns (obj: Option<Rec>)
    requires |img| <= MAX_FILE_SIZE
    requires At(img, HEAP_POS_AT, U64Bytes(heap))
    requires !IsMagicOffset(offset) ==> At(img, heap + offset, EncRec(r))
    ensures obj == if IsMagicOffset(offset) then None else Some(r)
  {
    hide At, EncRec, EncBody, Tag;
    if IsMagicOffset(offset) {
      return None;
    }
    var header := GetHeader(img);
    AtWord64(img, HEAP_POS_AT, heap);
    AtBounds(img, HEAP_POS_AT, U64Bytes(heap));
    RecFields(img, heap + offset, r);
    var cur: nat := header.heapPos + offset;
    var tag := ExpectByte(img, cur, Tag(r));
    var value := ReadBody(img, tag, cur + 1, r);
    obj := Some(value);
  }

  lemma RecFields(img: seq<Byte>, pos: int, r: Rec)
    requires At(img, pos, EncRec(r))
    ensures At(img, pos, [Tag(r)]) && At(img, pos + 1, EncBody(r))
  {
    AtSplit(img, pos, [Tag(r)], EncBody(r));
  }

  /** The part of a record behind its type byte. */
  method ReadBody(img: seq<Byte>, tag: Byte, offset: nat, ghost r: Rec) returns (v: Rec)
    requires |img| <= MAX_FILE_SIZE
    requires tag == Tag(r) && At(img, offset, EncBody(r))
    ensures v == r
  {
    hide At, EncStr, EncIds, EncPairs, EncMeta, LE, WordAt;
    var next: nat;
    if tag == 0 {
      var word := Expect64(img, offset, I64Word(r.int64));
      v := Int64(WordI64(word));
    } else if tag == 1 {
      var bits := Expect64(img, offset, r.bits);
      v := Float(bits);
    } else if tag == 2 || tag == 3 || tag == 8 {
      var chars;
      chars, next := ReadSizedString(img, offset, r.chars);
      v := Text(if tag == 2 then StringText else if tag == 3 then BytesText else BignumText, chars);
    } else if tag == 4 || tag == 5 || tag == 7 {
      var ids;
      ids, next := ReadIds(img, offset, r.ids);
      v := Elems(if tag == 4 then ListKind else if tag == 5 then TupleKind else SetKind, ids);
    } else if tag == 6 {
      var pairs;
      pairs, next := ReadPairs(img, offset, r.pairs);
      v := Dict(pairs);
    } else if tag == 9 {
      var meta;
      meta, next := ReadMeta(img, offset, r.meta);
      v := SerObject(meta);
    } else if tag == 10 || tag == 11 || tag == 12 {
      AtSplit(img, offset, EncIds(r.ids), EncMeta(r.meta));
      var ids, meta;
      ids, next := ReadIds(img, offset, r.ids);
      meta, next := ReadMeta(img, next, r.meta);
      v := SerElems(if tag == 10 then ListKind else if tag == 11 then SetKind else TupleKind, ids, meta);
    } else {
      AtSplit(img, offset, EncPairs(r.pairs), EncMeta(r.meta));
      var pairs, meta;
      pairs, next := ReadPairs(img, offset, r.pairs);
      meta, next := ReadMeta(img, next, r.meta);
      v := SerDict(pairs, meta);
    }
  }

  // ----------------------------------------------------------------
  // Frames, stacktraces, snapshots
  // ----------------------------------------------------------------

  method ReadLocal(img: seq<Byte>, offset: nat, ghost l: Local) returns (local: Local, next: nat)
    requires At(img, offset, EncLocal(l))
    ensures local == l && next == offset + |EncLocal(l)|
  {
    AtSplit(img, offset, U64Bytes(l.pythonId), EncStr(l.name));
    hide At, EncStr, WordAt;
    var pythonId := Expect64(img, offset, l.pythonId);
    var name;
    name, next := ReadSizedString(img, offset + 8, l.name);
    local := Local(name, pythonId);
  }

  method ReadLocals(img: seq<Byte>, offset: nat, count: U32, ghost locals: seq<Local>)
    returns (r: seq<Local>, next: nat)
    requires At(img, offset, Cat(EncLocal, locals)) && count == |locals|
    ensures r == locals && next == offset + |Cat(EncLocal, locals)|
  {
    hide At, EncLocal;
    next := offset;
    r := [];
    for i := 0 to count
      invariant r == locals[..i]
      invariant next == offset + |Cat(EncLocal, locals[..i])|
    {
      CatAt(img, offset, EncLocal, locals, i);
      var local;
      local, next := ReadLocal(img, next, locals[i]);
      r := r + [local];
    }
    assert locals[..count] == locals;
  }

  method ReadFrameAt(img: seq<Byte>, offset: nat, ghost f: Frame) returns (frame: Frame, consumed: nat)
    requires |img| <= MAX_FILE_SIZE && At(img, offset, EncFrame(f))
    ensures frame == f && consumed == |EncFrame(f)|
  {
    FrameFields(img, offset, f);
    hide At, EncStr, EncLocal;
    var cur := offset;
    var filePath, functionName, qualName;
    filePath, cur := ReadSizedString(img, cur, f.filePath);
    functionName, cur := ReadSizedString(img, cur, f.functionName);
    qualName, cur := ReadSizedString(img, cur, f.qualName);
    var line := Expect32(img, cur, f.line);
    cur := cur + 4;
    var count := Expect32(img, cur, |f.locals|);
    cur := cur + 4;
    var locals;
    locals, cur := ReadLocals(img, cur, count, f.locals);
    frame := Frame(filePath, functionName, qualName, line, locals);
    consumed := cur - offset;
  }

  method ReadFrames(img: seq<Byte>, offset: nat, count: U32, ghost frames: seq<Frame>)
    returns (r: seq<Frame>, next: nat)
    requires |img| <= MAX_FILE_SIZE && At(img, offset, Cat(EncFrame, frames)) && count == |frames|
    ensures r == frames && next == offset + |Cat(EncFrame, frames)|
  {
    hide At, EncFrame;
    next := offset;
    r := [];
    for i := 0 to count
      invariant r == frames[..i]
      invariant next == offset + |Cat(EncFrame, frames[..i])|
    {
      CatAt(img, offset, EncFrame, frames, i);
      var frame, consumed := ReadFrameAt(img, next, frames[i]);
      r := r + [frame];
      next := next + consumed;
    }
    assert frames[..count] == frames;
  }

  /** One byte the image is known to hold. */
  method ExpectByte(img: seq<Byte>, offset: nat, ghost n: Byte) returns (v: Byte)
    requires At(img, offset, [n])
    ensures v == n
  {
    assert img[offset..offset + 1][0] == n;
    v := img[offset];
  }

  method ReadStackAt(img: seq<Byte>, offset: nat, ghost s: Stack) returns (stack: Stack, next: nat)
    requires |img| <= MAX_FILE_SIZE && At(img, offset, EncStack(s))
    ensures stack == s && next == offset + |EncStack(s)|
  {
    hide At, Cat, EncFrame, EncStack, EncStackHeader, LE, WordAt, StackHeaderFields, StackFlags, HasTruncatedFlag,
         HasDepthFlag;
    StackFields(img, offset, s);
    FlagsRead(s.truncated, s.depthTruncated);
    var info, frameCount, flags :=
      ReadStackHeader(img, offset, s.info, |s.frames|, StackFlags(s.truncated, s.depthTruncated));
    next := offset + STACKTRACE_HEADER_SIZE + |info.threadName|;
    var frames;
    frames, next := ReadFrames(img, next, frameCount, s.frames);
    stack := Stack(info, HasTruncatedFlag(flags), HasDepthFlag(flags), frames);
  }

  lemma FlagsRead(truncated: bool, depthTruncated: bool)
    ensures HasTruncatedFlag(StackFlags(truncated, depthTruncated)) == truncated
    ensures HasDepthFlag(StackFlags(truncated, depthTruncated)) == depthTruncated
  {
  }

  /** The header of a stacktrace and the thread name behind it. */
  method ReadStackHeader(img: seq<Byte>, offset: nat, ghost i: StackInfo, ghost count: U32, ghost f: Byte)
    returns (info: StackInfo, frameCount: U32, flags: Byte)
    requires StackHeaderFields(img, offset, i, count, f)
    requires At(img, offset + STACKTRACE_HEADER_SIZE, i.threadName)
    ensures info == i && frameCount == count && flags == f
  {
    hide At, LE, WordAt;
    var id := Expect64(img, offset, i.id);
    frameCount := Expect32(img, offset + 8, count);
    var exceptionId := Expect64(img, offset + 12, i.exceptionId);
    var causeId := Expect64(img, offset + 20, i.causeId);
    var contextId := Expect64(img, offset + 28, i.contextId);
    flags := ExpectByte(img, offset + 36, f);
    var nameLength := Expect32(img, offset + 37, |i.threadName|);
    var threadName := ReadName(img, offset + STACKTRACE_HEADER_SIZE, nameLength, i.threadName);
    info := StackInfo(id, threadName, exceptionId, causeId, contextId);
  }

  /** A string whose length is already known. */
  method ReadName(img: seq<Byte>, offset: nat, length: U32, ghost t: Str) returns (s: Str)
    requires At(img, offset, t) && length == |t|
    ensures s == t
  {
    s := ReadString(img, offset, length);
  }

  method ReadMap(img: seq<Byte>, offset: nat, count: U32, ghost entries: seq<Entry>) returns (objectMap: map<U64, U64>)
    requires At(img, offset, Cat(EncEntry, entries)) && count == |entries|
    ensures objectMap == MapOf(entries)
  {
    objectMap := map[];
    var cur := offset;
    for i := 0 to count
      invariant objectMap == MapOf(entries[..i])
      invariant cur == offset + |Cat(EncEntry, entries[..i])|
    {
      var pythonId, heapOffset := ReadEntry(img, offset, cur, i, entries);
      objectMap := objectMap[pythonId := heapOffset];
      cur := cur + MAP_ENTRY_SIZE;
    }
    assert entries[..count] == entries;
  }

  method ReadEntry(img: seq<Byte>, ghost start: nat, offset: nat, ghost i: nat, ghost entries: seq<Entry>)
    returns (pythonId: U64, heapOffset: U64)
    requires At(img, start, Cat(EncEntry, entries)) && i < |entries|
    requires offset == start + |Cat(EncEntry, entries[..i])|
    ensures pythonId == entries[i].pythonId && heapOffset == entries[i].offset
    ensures |Cat(EncEntry, entries[..i + 1])| == |Cat(EncEntry, entries[..i])| + MAP_ENTRY_SIZE
    ensures MapOf(entries[..i + 1]) == MapOf(entries[..i])[pythonId := heapOffset]
  {
    CatAt(img, start, EncEntry, entries, i);
    AtSplit(img, offset, U64Bytes(entries[i].pythonId), U64Bytes(entries[i].offset));
    hide At;
    pythonId := Expect64(img, offset, entries[i].pythonId);
    heapOffset := Expect64(img, offset + 8, entries[i].offset);
    assert entries[..i + 1][..i] == entries[..i];
  }

  method ReadStacks(img: seq<Byte>, offset: nat, count: U32, ghost stacks: seq<Stack>)
    returns (stacktraces: map<U64, Stack>)
    requires |img| <= MAX_FILE_SIZE && At(img, offset, Cat(EncStack, stacks)) && count == |stacks|
    ensures stacktraces == ById(stacks)
  {
    hide At, EncStack;
    var cur := offset;
    stacktraces := map[];
    for t := 0 to count
      invariant stacktraces == ById(stacks[..t])
      invariant cur == offset + |Cat(EncStack, stacks[..t])|
    {
      CatAt(img, offset, EncStack, stacks, t);
      var stack;
      stack, cur := ReadStackAt(img, cur, stacks[t]);
      stacktraces := stacktraces[stack.info.id := stack];
      assert stacks[..t + 1][..t] == stacks[..t];
    }
    assert stacks[..count] == stacks;
  }

  method ReadSnapshotHeader(img: seq<Byte>, offset: nat, ghost ts: U64, ghost pr: U64, ghost sc: U32, ghost mp: U64,
                            ghost mc: U32, ghost fl: Byte)
    returns (timestamp: U64, prev: U64, stackCount: U32, mapPos: U64, mapCount: U32, flags: Byte)
    requires SnapHeaderFields(img, offset, ts, pr, sc, mp, mc, fl)
    ensures timestamp == ts && prev == pr && stackCount == sc && mapPos == mp && mapCount == mc && flags == fl
  {
    hide At, LE;
    timestamp := Expect64(img, offset, ts);
    prev := Expect64(img, offset + 8, pr);
    stackCount := Expect32(img, offset + 16, sc);
    mapPos := Expect64(img, offset + 20, mp);
    mapCount := Expect32(img, offset + 28, mc);
    flags := ExpectByte(img, offset + 32, fl);
  }

  method ReadSnapshotAt(img: seq<Byte>, offset: U64, ghost s: Snap) returns (snapshot: Snapshot)
    requires |img| <= MAX_FILE_SIZE
    requires s.pos == offset && At(img, offset, EncSnap(s))
    ensures snapshot == View(s)
  {
    hide At, Cat, EncStack, EncEntry, EncSnap, LE, MapPos;
    SnapFields(img, s);
    var timestamp, prev, stackCount, mapPos, mapCount, flags := ReadSnapshotHeader(
      img, offset, s.timestamp, s.prev, |s.stacks|, MapPos(s), |s.entries|, if s.truncated then 0x01 else 0);
    var objectMap := ReadMap(img, mapPos, mapCount, s.entries);
    var stacktraces := ReadStacks(img, offset + SNAPSHOT_HEADER_SIZE, stackCount, s.stacks);
    snapshot := Snapshot(timestamp, prev, offset, stacktraces, objectMap, HasTruncatedFlag(flags));
  }

  lemma FrameFields(img: seq<Byte>, pos: int, f: Frame)
    requires At(img, pos, EncFrame(f)) && |img| <= MAX_FILE_SIZE
    ensures |f.locals| < 0x1_0000_0000
    ensures
      var p1 := pos + |EncStr(f.filePath)|;
      var p2 := p1 + |EncStr(f.functionName)|;
      var p3 := p2 + |EncStr(f.qualName)|;
      && At(img, pos, EncStr(f.filePath)) && At(img, p1, EncStr(f.functionName)) && At(img, p2, EncStr(f.qualName))
      && At(img, p3, U32Bytes(f.line)) && At(img, p3 + 4, LE(|f.locals|, 4)) && At(img, p3 + 8, Cat(EncLocal, f.locals))
  {
    hide EncStr, EncLocal;
    var a := EncStr(f.filePath);
    var b := a + EncStr(f.functionName);
    var c := b + EncStr(f.qualName);
    var d := c + U32Bytes(f.line);
    var e := d + LE(|f.locals|, 4);
    AtSplit(img, pos, e, Cat(EncLocal, f.locals));
    AtSplit(img, pos, d, LE(|f.locals|, 4));
    AtSplit(img, pos, c, U32Bytes(f.line));
    AtSplit(img, pos, b, EncStr(f.qualName));
    AtSplit(img, pos, a, EncStr(f.functionName));
    LocalsFit(f.locals);
  }

  lemma StackFields(img: seq<Byte>, pos: int, s: Stack)
    requires At(img, pos, EncStack(s)) && |img| <= MAX_FILE_SIZE
    ensures StackHeaderFields(img, pos, s.info, |s.frames|, StackFlags(s.truncated, s.depthTruncated))
    ensures At(img, pos + STACKTRACE_HEADER_SIZE, s.info.threadName)
    ensures At(img, pos + STACKTRACE_HEADER_SIZE + |s.info.threadName|, Cat(EncFrame, s.frames))
    ensures |s.frames| < 0x1_0000_0000
    ensures |EncStack(s)| == STACKTRACE_HEADER_SIZE + |s.info.threadName| + |Cat(EncFrame, s.frames)|
  {
    var header := EncStackHeader(s.info, |s.frames|, StackFlags(s.truncated, s.depthTruncated));
    AtSplit(img, pos, header + s.info.threadName, Cat(EncFrame, s.frames));
    AtSplit(img, pos, header, s.info.threadName);
    StackHeaderAt(img, pos, s.info, |s.frames|, StackFlags(s.truncated, s.depthTruncated));
    FramesFit(s.frames);
  }

  lemma SnapFields(img: seq<Byte>, s: Snap)
    requires At(img, s.pos, EncSnap(s)) && |img| <= MAX_FILE_SIZE
    ensures SnapHeaderFields(img, s.pos, s.timestamp, s.prev, |s.stacks|, MapPos(s), |s.entries|,
                             if s.truncated then 0x01 else 0)
    ensures At(img, s.pos + SNAPSHOT_HEADER_SIZE, Cat(EncStack, s.stacks))
    ensures At(img, MapPos(s), Cat(EncEntry, s.entries))
    ensures |s.stacks| < 0x1_0000_0000 && |s.entries| < 0x1_0000_0000 && MapPos(s) <= MAX_FILE_SIZE
  {
    hide At, EncStack, EncEntry, EncSnapHeader, LE, SnapHeaderFields;
    var header :=
      EncSnapHeader(s.timestamp, s.prev, |s.stacks|, MapPos(s), |s.entries|, if s.truncated then 0x01 else 0);
    AtSplit(img, s.pos, header + Cat(EncStack, s.stacks), Cat(EncEntry, s.entries));
    AtSplit(img, s.pos, header, Cat(EncStack, s.stacks));
    SnapHeaderAt(img, s.pos, s.timestamp, s.prev, |s.stacks|, MapPos(s), |s.entries|, if s.truncated then 0x01 else 0);
    AtBounds(img, MapPos(s), Cat(EncEntry, s.entries));
    AtBounds(img, s.pos + SNAPSHOT_HEADER_SIZE, Cat(EncStack, s.stacks));
    StacksFit(s.stacks);
    EntriesFit(s.entries);
  }

  /** A reader of the memory of a file, or of a live writer. */
  class SnapshotReader {
    var data: array?<Byte>

    /** The bytes the reader sees. */
    ghost function Image(): seq<Byte>
      requires data != null
      reads this, data
    {
      data[..]
    }

    constructor (memory: array<Byte>)
      ensures data == memory
    {
      data := memory;
    }

    /** Called by the writer when the mapping moves, and with null when it goes away. */
    method UpdateMemory(memory: array?<Byte>)
      modifies this
      ensures data == memory
    {
      data := memory;
    }

    method GetLatestSnapshot(ghost snaps: seq<Snap>) returns (r: Option<Snapshot>)
      requires data != null && Holds(Image(), snaps)
      ensures r == if snaps == [] then None else Some(View(snaps[|snaps| - 1]))
    {
      hide At, SnapOk, LE, EncSnap;
      var img := data[..];
      var last := Expect64(img, LAST_SNAPSHOT_AT, LastPos(snaps));
      if snaps != [] {
        LinksGoBack(img, snaps, |snaps| - 1);
      }
      if last == 0 {
        return None;
      }
      var s := ReadSnapshotAt(img, last, snaps[|snaps| - 1]);
      r := Some(s);
    }

    /** The snapshot of a chronological index, found by walking back from the newest. */
    method GetSnapshotAtIndex(index: nat, ghost snaps: seq<Snap>) returns (r: Option<Snapshot>)
      requires data != null && Holds(Image(), snaps)
      ensures r == if index < |snaps| then Some(View(snaps[index])) else None
    {
      hide At, SnapOk, LE, EncSnap;
      var img := data[..];
      var last := Expect64(img, LAST_SNAPSHOT_AT, LastPos(snaps));
      var count := Expect32(img, SNAPSHOT_COUNT_AT, |snaps|);
      if count == 0 || index >= count {
        return None;
      }
      var stepsBack := count - 1 - index;
      var offset := last;
      for i := 0 to stepsBack
        invariant offset == snaps[count - 1 - i].pos
      {
        offset := ReadPrev(img, snaps, count - 1 - i, offset);
      }
      LinksGoBack(img, snaps, index);
      var s := ReadSnapshotAt(img, offset, snaps[index]);
      r := Some(s);
    }

    /** The link of a record. */
    static method ReadPrev(img: seq<Byte>, ghost snaps: seq<Snap>, ghost k: nat, offset: U64) returns (prev: U64)
      requires Holds(img, snaps) && k < |snaps| && offset == snaps[k].pos
      ensures prev == snaps[k].prev
      ensures prev == if k == 0 then 0 else snaps[k - 1].pos
    {
      hide At, SnapOk, LE, EncSnap;
      LinksGoBack(img, snaps, k);
      SnapFields(img, snaps[k]);
      prev := Expect64(img, offset + 8, snaps[k].prev);
    }

    /** All snapshots, oldest first: the chain is walked backwards and then reversed. */
    method GetAllSnapshots(ghost snaps: seq<Snap>) returns (r: seq<Snapshot>)
      requires data != null && Holds(Image(), snaps)
      ensures |r| == |snaps|
      ensures forall k :: 0 <= k < |snaps| ==> r[k] == View(snaps[k])
    {
      hide At, SnapOk, LE, EncSnap, View;
      var img := data[..];
      var offset := Expect64(img, LAST_SNAPSHOT_AT, LastPos(snaps));
      var found: seq<Snapshot> := [];
      ghost var left: nat := |snaps|;
      while offset != 0
        invariant left <= |snaps| && |found| == |snaps| - left
        invariant offset == if left == 0 then 0 else snaps[left - 1].pos
        invariant forall i :: 0 <= i < |found| ==> found[i] == View(snaps[|snaps| - 1 - i])
        decreases left
      {
        LinksGoBack(img, snaps, left - 1);
        var s := ReadSnapshotAt(img, offset, snaps[left - 1]);
        found := found + [s];
        offset := s.prevSnapshotPos;
        ViewPrev(snaps[left - 1]);
        left := left - 1;
      }
      if left > 0 {
        LinksGoBack(img, snaps, left - 1);
      }
      r := Reverse(found);
    }

    method GetSnapshotAtPosition(position: U64, ghost snaps: seq<Snap>, ghost k: nat) returns (s: Snapshot)
      requires data != null && Holds(Image(), snaps) && k < |snaps| && position == snaps[k].pos
      ensures s == View(snaps[k])
    {
      LinksGoBack(data[..], snaps, k);
      s := ReadSnapshotAt(data[..], position, snaps[k]);
    }
  }

  lemma ViewPrev(s: Snap)
    ensures View(s).prevSnapshotPos == s.prev
  {
  }

  method Reverse<T>(xs: seq<T>) returns (r: seq<T>)
    ensures |r| == |xs| && forall i :: 0 <= i < |xs| ==> r[i] == xs[|xs| - 1 - i]
  {
    r := [];
    for i := 0 to |xs|
      invariant |r| == i && forall k :: 0 <= k < i ==> r[k] == xs[|xs| - 1 - k]
    {
      r := r + [xs[|xs| - 1 - i]];
    }
  }
}
