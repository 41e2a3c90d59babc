/**
 * The finished file: trailing sections, the complete header, and the output with the gap between
 * records and heap cut out. Cutting the gap preserves the answer to every query.
 */
module Compaction {
  import opened Bytes
  import opened Format
  import opened Layout
  import opened Reading

  datatype SourceFile = SourceFile(path: Str, content: Str)

  const MAX_PATH := 100000
  const MAX_CONTENT := 10000000

  /** The sanity limits of the reader; the writer does not know them. */
  predicate WithinLimits(f: SourceFile) {
    |f.path| <= MAX_PATH && |f.content| <= MAX_CONTENT
  }

  datatype Stat = Stat(name: Str, value: U64)

  /** What `finalize` adds behind the heap. */
  datatype Trailer = Trailer(files: seq<SourceFile>, env: seq<Byte>, manifest: seq<Byte>, metadata: seq<Byte>,
                             stats: seq<Stat>)

  function EncFile(f: SourceFile): seq<Byte> {
    LE(|f.path|, 4) + LE(|f.content|, 4) + f.path + f.content
  }

  function EncStat(s: Stat): seq<Byte> {
    U64Bytes(s.value) + EncStr(s.name)
  }

  function EncHeader(h: FileHeader): (r: seq<Byte>)
    ensures |r| == FILE_HEADER_SIZE
  {
    U32Bytes(h.magic) + U32Bytes(h.version) + U64Bytes(h.lastSnapshotPos) + U32Bytes(h.snapshotCount)
      + U64Bytes(h.heapPos) + U64Bytes(h.fileTablePos) + U32Bytes(h.fileTableCount)
      + U64Bytes(h.envPos) + U64Bytes(h.envSize) + U64Bytes(h.manifestPos) + U64Bytes(h.manifestSize)
      + U64Bytes(h.metadataPos) + U64Bytes(h.metadataSize) + U64Bytes(h.statsPos) + U32Bytes(h.statsCount)
  }

  ghost predicate FrontFields(img: seq<Byte>, h: FileHeader) {
    && At(img, 0, U32Bytes(h.magic)) && At(img, VERSION_AT, U32Bytes(h.version))
    && At(img, LAST_SNAPSHOT_AT, U64Bytes(h.lastSnapshotPos)) && At(img, SNAPSHOT_COUNT_AT, U32Bytes(h.snapshotCount))
  }

  ghost predicate PlaceFields(img: seq<Byte>, h: FileHeader) {
    && At(img, HEAP_POS_AT, U64Bytes(h.heapPos))
    && At(img, FILE_TABLE_POS_AT, U64Bytes(h.fileTablePos)) && At(img, FILE_TABLE_COUNT_AT, U32Bytes(h.fileTableCount))
    && At(img, ENV_POS_AT, U64Bytes(h.envPos)) && At(img, ENV_SIZE_AT, U64Bytes(h.envSize))
    && At(img, MANIFEST_POS_AT, U64Bytes(h.manifestPos)) && At(img, MANIFEST_SIZE_AT, U64Bytes(h.manifestSize))
    && At(img, METADATA_POS_AT, U64Bytes(h.metadataPos)) && At(img, METADATA_SIZE_AT, U64Bytes(h.metadataSize))
    && At(img, STATS_POS_AT, U64Bytes(h.statsPos)) && At(img, STATS_COUNT_AT, U32Bytes(h.statsCount))
  }

  function FrontBytes(h: FileHeader): (r: seq<Byte>)
    ensures |r| == HEAP_POS_AT
  {
    U32Bytes(h.magic) + U32Bytes(h.version) + U64Bytes(h.lastSnapshotPos) + U32Bytes(h.snapshotCount)
  }

  /** The header fields `finalize` writes, from the heap position on. */
  function PlaceBytes(h: FileHeader): (r: seq<Byte>)
    ensures |r| == FILE_HEADER_SIZE - HEAP_POS_AT
  {
    U64Bytes(h.heapPos) + U64Bytes(h.fileTablePos) + U32Bytes(h.fileTableCount)
      + U64Bytes(h.envPos) + U64Bytes(h.envSize) + U64Bytes(h.manifestPos) + U64Bytes(h.manifestSize)
      + U64Bytes(h.metadataPos) + U64Bytes(h.metadataSize) + U64Bytes(h.statsPos) + U32Bytes(h.statsCount)
  }

  lemma HeaderInTwo(h: FileHeader)
    ensures EncHeader(h) == FrontBytes(h) + PlaceBytes(h)
  {
    hide LE;
  }

  lemma FrontAt(img: seq<Byte>, h: FileHeader)
    ensures At(img, 0, FrontBytes(h)) <==> FrontFields(img, h)
  {
    hide At, LE;
    var a := U32Bytes(h.magic);
    var b := a + U32Bytes(h.version);
    var c := b + U64Bytes(h.lastSnapshotPos);
    AtSplit(img, 0, c, U32Bytes(h.snapshotCount));
    AtSplit(img, 0, b, U64Bytes(h.lastSnapshotPos));
    AtSplit(img, 0, a, U32Bytes(h.version));
  }

  lemma PlaceAt(img: seq<Byte>, h: FileHeader)
    ensures At(img, HEAP_POS_AT, PlaceBytes(h)) <==> PlaceFields(img, h)
  {
    hide At, LE;
    var p := HEAP_POS_AT;
    var a := U64Bytes(h.heapPos);
    var b := a + U64Bytes(h.fileTablePos);
    var c := b + U32Bytes(h.fileTableCount);
    var d := c + U64Bytes(h.envPos);
    var e := d + U64Bytes(h.envSize);
    var f := e + U64Bytes(h.manifestPos);
    var g := f + U64Bytes(h.manifestSize);
    var i := g + U64Bytes(h.metadataPos);
    var j := i + U64Bytes(h.metadataSize);
    var k := j + U64Bytes(h.statsPos);
    AtSplit(img, p, k, U32Bytes(h.statsCount));
    AtSplit(img, p, j, U64Bytes(h.statsPos));
    AtSplit(img, p, i, U64Bytes(h.metadataSize));
    AtSplit(img, p, g, U64Bytes(h.metadataPos));
    AtSplit(img, p, f, U64Bytes(h.manifestSize));
    AtSplit(img, p, e, U64Bytes(h.manifestPos));
    AtSplit(img, p, d, U64Bytes(h.envSize));
    AtSplit(img, p, c, U64Bytes(h.envPos));
    AtSplit(img, p, b, U32Bytes(h.fileTableCount));
    AtSplit(img, p, a, U64Bytes(h.fileTablePos));
  }

  lemma HeaderAt(img: seq<Byte>, h: FileHeader)
    ensures At(img, 0, EncHeader(h)) <==> FrontFields(img, h) && PlaceFields(img, h)
  {
    hide At, EncHeader, FrontFields, PlaceFields, FrontBytes, PlaceBytes;
    HeaderInTwo(h);
    AtSplit(img, 0, FrontBytes(h), PlaceBytes(h));
    FrontAt(img, h);
    PlaceAt(img, h);
  }

  // ------------------------------------------------------------------
  // A finished image, position by position
  // ------------------------------------------------------------------

  /** Snapshots, heap and sections are where the header says. */
  ghost predicate Core(img: seq<Byte>, h: FileHeader, snaps: seq<Snap>, heap: map<nat, Rec>, t: Trailer) {
    && |img| <= MAX_FILE_SIZE
    && At(img, 0, EncHeader(h)) && h.magic == MAGIC_NUMBER && h.version == FORMAT_VERSION
    && h.lastSnapshotPos == LastPos(snaps) && h.snapshotCount == |snaps| && SnapsOk(img, snaps)
    && HeapAt(img, h.heapPos, heap)
    && h.fileTableCount == |t.files| && At(img, h.fileTablePos, Cat(EncFile, t.files))
    && h.envSize == |t.env| && At(img, h.envPos, t.env)
    && h.manifestSize == |t.manifest| && At(img, h.manifestPos, t.manifest)
    && h.metadataSize == |t.metadata| && At(img, h.metadataPos, t.metadata)
  }

  ghost predicate HeapAt(img: seq<Byte>, pos: nat, heap: map<nat, Rec>) {
    forall off :: off in heap ==> At(img, pos + off, EncRec(heap[off]))
  }

  /** Statistics run to the end of the image if fewer were written than announced. */
  ghost predicate StatsOk(img: seq<Byte>, h: FileHeader, stats: seq<Stat>) {
    if h.statsPos == 0 then h.statsCount == 0 && stats == [] else
      && At(img, h.statsPos, Cat(EncStat, stats))
      && |stats| <= h.statsCount
      && (|stats| < h.statsCount ==> h.statsPos + |Cat(EncStat, stats)| == |img|)
  }

  ghost predicate Complete(img: seq<Byte>, h: FileHeader, snaps: seq<Snap>, heap: map<nat, Rec>, t: Trailer) {
    Core(img, h, snaps, heap, t) && StatsOk(img, h, t.stats)
  }

  /** Records, then the heap, then the sections, up to the end of the data. */
  ghost predicate Sequential(h: FileHeader, snaps: seq<Snap>, recordsEnd: nat, total: nat) {
    && FILE_HEADER_SIZE <= RECORDS_START <= recordsEnd <= h.heapPos <= total
    && SnapsEnd(snaps) <= recordsEnd
    && h.heapPos <= h.fileTablePos && h.heapPos <= h.envPos && h.heapPos <= h.manifestPos && h.heapPos <= h.metadataPos
    && (h.statsPos == 0 || h.heapPos <= h.statsPos)
  }

  /** Everything from the heap on moves down by the size of the gap. */
  function Adjust(h: FileHeader, gap: nat): FileHeader
    requires gap <= h.heapPos && gap <= h.fileTablePos && gap <= h.envPos && gap <= h.manifestPos
    requires gap <= h.metadataPos
    requires h.statsPos == 0 || gap <= h.statsPos
  {
    h.(heapPos := h.heapPos - gap, fileTablePos := h.fileTablePos - gap, envPos := h.envPos - gap,
       manifestPos := h.manifestPos - gap, metadataPos := h.metadataPos - gap,
       statsPos := if h.statsPos > 0 then h.statsPos - gap else 0)
  }

  /** The three segments of the output: adjusted header, records, heap with sections. */
  function Segments(img: seq<Byte>, h: FileHeader, recordsEnd: nat, heapStart: nat): seq<Byte>
    requires FILE_HEADER_SIZE <= recordsEnd <= heapStart <= |img|
  {
    EncHeader(h) + img[FILE_HEADER_SIZE..recordsEnd] + img[heapStart..]
  }

  lemma Moved(img: seq<Byte>, h: FileHeader, recordsEnd: nat, heapStart: nat, pos: nat, bytes: seq<Byte>)
    requires FILE_HEADER_SIZE <= recordsEnd <= heapStart <= pos && At(img, pos, bytes)
    ensures heapStart <= |img| && At(Segments(img, h, recordsEnd, heapStart), pos - (heapStart - recordsEnd), bytes)
  {
    hide EncHeader;
    var out, gap := Segments(img, h, recordsEnd, heapStart), heapStart - recordsEnd;
    forall k | 0 <= k < |bytes| ensures out[pos - gap + k] == bytes[k] {
      assert bytes[k] == img[pos..pos + |bytes|][k] == img[pos + k] == img[heapStart..][pos + k - heapStart];
    }
  }

  lemma Stayed(img: seq<Byte>, h: FileHeader, recordsEnd: nat, heapStart: nat)
    requires FILE_HEADER_SIZE <= RECORDS_START <= recordsEnd <= heapStart <= |img|
    ensures SameOn(img, Segments(img, h, recordsEnd, heapStart), RECORDS_START, recordsEnd)
    ensures At(Segments(img, h, recordsEnd, heapStart), 0, EncHeader(h))
    ensures |Segments(img, h, recordsEnd, heapStart)| == |img| - (heapStart - recordsEnd)
  {
    hide EncHeader;
    var out := Segments(img, h, recordsEnd, heapStart);
    assert out[0..FILE_HEADER_SIZE] == EncHeader(h);
    forall i | RECORDS_START <= i < recordsEnd ensures img[i] == out[i] {
      assert img[FILE_HEADER_SIZE..recordsEnd][i - FILE_HEADER_SIZE] == img[i];
    }
  }

  /** Cutting the gap out keeps all there is to find, whatever bytes the gap held. */
  lemma CompactionPreserves(img: seq<Byte>, h: FileHeader, snaps: seq<Snap>, heap: map<nat, Rec>, t: Trailer,
                            recordsEnd: nat)
    requires Complete(img, h, snaps, heap, t) && Sequential(h, snaps, recordsEnd, |img|)
    ensures Complete(Segments(img, Adjust(h, h.heapPos - recordsEnd), recordsEnd, h.heapPos),
                     Adjust(h, h.heapPos - recordsEnd), snaps, heap, t)
  {
    hide At, SnapsOk, SameOn, EncHeader, Segments, EncRec, LE, Cat, SnapsEnd, LastPos;
    var gap := h.heapPos - recordsEnd;
    var h' := Adjust(h, gap);
    var out := Segments(img, h', recordsEnd, h.heapPos);
    Stayed(img, h', recordsEnd, h.heapPos);
    SnapsFrame(img, out, snaps, recordsEnd);
    forall off | off in heap ensures At(out, h'.heapPos + off, EncRec(heap[off])) {
      Moved(img, h', recordsEnd, h.heapPos, h.heapPos + off, EncRec(heap[off]));
    }
    Moved(img, h', recordsEnd, h.heapPos, h.fileTablePos, Cat(EncFile, t.files));
    Moved(img, h', recordsEnd, h.heapPos, h.envPos, t.env);
    Moved(img, h', recordsEnd, h.heapPos, h.manifestPos, t.manifest);
    Moved(img, h', recordsEnd, h.heapPos, h.metadataPos, t.metadata);
    if h.statsPos != 0 {
      Moved(img, h', recordsEnd, h.heapPos, h.statsPos, Cat(EncStat, t.stats));
    }
  }

  // ------------------------------------------------------------------
  // Queries on a finished image
  // ------------------------------------------------------------------

  method ReadHeader(img: seq<Byte>, ghost h: FileHeader) returns (header: FileHeader)
    requires At(img, 0, EncHeader(h))
    ensures header == h
  {
    HeaderAt(img, h);
    FrontWords(img, h);
    PlaceWords(img, h);
    header := GetHeader(img);
  }

  lemma FrontWords(img: seq<Byte>, h: FileHeader)
    requires FrontFields(img, h)
    ensures WordAt(img, 0, 4) == h.magic && WordAt(img, VERSION_AT, 4) == h.version
    ensures WordAt(img, LAST_SNAPSHOT_AT, 8) == h.lastSnapshotPos
    ensures WordAt(img, SNAPSHOT_COUNT_AT, 4) == h.snapshotCount
  {
    AtWord32(img, 0, h.magic);
    AtWord32(img, VERSION_AT, h.version);
    AtWord64(img, LAST_SNAPSHOT_AT, h.lastSnapshotPos);
    AtWord32(img, SNAPSHOT_COUNT_AT, h.snapshotCount);
  }

  lemma PlaceWords(img: seq<Byte>, h: FileHeader)
    requires PlaceFields(img, h)
    ensures WordAt(img, HEAP_POS_AT, 8) == h.heapPos
    ensures WordAt(img, FILE_TABLE_POS_AT, 8) == h.fileTablePos
    ensures WordAt(img, FILE_TABLE_COUNT_AT, 4) == h.fileTableCount
    ensures WordAt(img, ENV_POS_AT, 8) == h.envPos && WordAt(img, ENV_SIZE_AT, 8) == h.envSize
    ensures WordAt(img, MANIFEST_POS_AT, 8) == h.manifestPos && WordAt(img, MANIFEST_SIZE_AT, 8) == h.manifestSize
    ensures WordAt(img, METADATA_POS_AT, 8) == h.metadataPos && WordAt(img, METADATA_SIZE_AT, 8) == h.metadataSize
    ensures WordAt(img, STATS_POS_AT, 8) == h.statsPos && WordAt(img, STATS_COUNT_AT, 4) == h.statsCount
  {
    AtWord64(img, HEAP_POS_AT, h.heapPos);
    AtWord64(img, FILE_TABLE_POS_AT, h.fileTablePos);
    AtWord32(img, FILE_TABLE_COUNT_AT, h.fileTableCount);
    AtWord64(img, ENV_POS_AT, h.envPos);
    AtWord64(img, ENV_SIZE_AT, h.envSize);
    AtWord64(img, MANIFEST_POS_AT, h.manifestPos);
    AtWord64(img, MANIFEST_SIZE_AT, h.manifestSize);
    AtWord64(img, METADATA_POS_AT, h.metadataPos);
    AtWord64(img, METADATA_SIZE_AT, h.metadataSize);
    AtWord64(img, STATS_POS_AT, h.statsPos);
    AtWord32(img, STATS_COUNT_AT, h.statsCount);
  }

  method ReadSection(img: seq<Byte>, pos: nat, size: nat) returns (s: seq<Byte>)
    ensures s == if pos + size > |img| then [] else img[pos..pos + size]
  {
    if size == 0 || pos + size > |img| {
      return [];
    }
    s := img[pos..pos + size];
  }

  /** The metadata, with "{}" for none. */
  method GetMetadata(img: seq<Byte>, ghost h: FileHeader, ghost snaps: seq<Snap>, ghost heap: map<nat, Rec>,
                     ghost t: Trailer)
    returns (r: seq<Byte>)
    requires Core(img, h, snaps, heap, t)
    ensures r == if t.metadata == [] then [123, 125] else t.metadata
  {
    hide EncHeader, SnapsOk, HeapAt;
    var header := ReadHeader(img, h);
    if header.metadataSize == 0 {
      return [123, 125];
    }
    r := ReadSection(img, header.metadataPos, header.metadataSize);
  }

  method GetManifest(img: seq<Byte>, ghost h: FileHeader, ghost snaps: seq<Snap>, ghost heap: map<nat, Rec>,
                     ghost t: Trailer)
    returns (r: seq<Byte>)
    requires Core(img, h, snaps, heap, t)
    ensures r == t.manifest
  {
    hide EncHeader, SnapsOk, HeapAt;
    var header := ReadHeader(img, h);
    if header.manifestSize == 0 {
      return [];
    }
    r := ReadSection(img, header.manifestPos, header.manifestSize);
  }

  /** The block of KEY=VALUE strings. */
  method GetEnvironmentBlock(img: seq<Byte>, ghost h: FileHeader, ghost snaps: seq<Snap>, ghost heap: map<nat, Rec>,
                             ghost t: Trailer)
    returns (r: seq<Byte>)
    requires Core(img, h, snaps, heap, t)
    ensures r == t.env
  {
    hide EncHeader, SnapsOk, HeapAt;
    var header := ReadHeader(img, h);
    if header.envSize == 0 || header.envPos + header.envSize > |img| {
      return [];
    }
    r := ReadSection(img, header.envPos, header.envSize);
  }

  /** A file table entry. Beyond its limits the reader gives up on the entry and loses its place. */
  method ReadSourceFileAt(img: seq<Byte>, offset: nat, ghost f: SourceFile) returns (file: SourceFile, consumed: nat)
    requires At(img, offset, EncFile(f))
    ensures |f.path| > MAX_PATH ==> file == SourceFile([], []) && consumed == 0
    ensures |f.path| <= MAX_PATH && |f.content| > MAX_CONTENT ==>
      file == SourceFile(f.path, []) && consumed == 8 + |f.path| < |EncFile(f)|
    ensures WithinLimits(f) ==> file == f && consumed == |EncFile(f)|
  {
    hide At, LE;
    FileFields(img, offset, f);
    var pathLength := Expect32(img, offset, |f.path|);
    var contentLength := Expect32(img, offset + 4, |f.content|);
    AtBounds(img, offset + 8, f.path);
    AtBounds(img, offset + 8 + |f.path|, f.content);
    var cur := offset + 8;
    if pathLength > MAX_PATH || cur + pathLength > |img| {
      return SourceFile([], []), 0;
    }
    var path := ReadName(img, cur, pathLength, f.path);
    cur := cur + pathLength;
    if contentLength > MAX_CONTENT || cur + contentLength > |img| {
      return SourceFile(path, []), cur - offset;
    }
    var content := ReadName(img, cur, contentLength, f.content);
    cur := cur + contentLength;
    file, consumed := SourceFile(path, content), cur - offset;
  }

  lemma FileFields(img: seq<Byte>, pos: int, f: SourceFile)
    requires At(img, pos, EncFile(f))
    ensures At(img, pos, LE(|f.path|, 4)) && At(img, pos + 4, LE(|f.content|, 4))
    ensures At(img, pos + 8, f.path) && At(img, pos + 8 + |f.path|, f.content)
    ensures |EncFile(f)| == 8 + |f.path| + |f.content|
  {
    hide At, LE;
    var a := LE(|f.path|, 4);
    var b := a + LE(|f.content|, 4);
    AtSplit(img, pos, b + f.path, f.content);
    AtSplit(img, pos, b, f.path);
    AtSplit(img, pos, a, LE(|f.content|, 4));
  }

  method GetAllSourceFiles(img: seq<Byte>, ghost h: FileHeader, ghost snaps: seq<Snap>, ghost heap: map<nat, Rec>,
                           ghost t: Trailer)
    returns (r: seq<SourceFile>)
    requires Core(img, h, snaps, heap, t) && forall i :: 0 <= i < |t.files| ==> WithinLimits(t.files[i])
    ensures r == t.files
  {
    hide At, EncHeader, EncFile, SnapsOk, HeapAt;
    var header := ReadHeader(img, h);
    var offset: nat := header.fileTablePos;
    r := [];
    for i := 0 to header.fileTableCount
      invariant r == t.files[..i] && offset == h.fileTablePos + |Cat(EncFile, t.files[..i])|
    {
      CatAt(img, h.fileTablePos, EncFile, t.files, i);
      var file, consumed := ReadSourceFileAt(img, offset, t.files[i]);
      r := r + [file];
      offset := offset + consumed;
    }
    assert t.files[..|t.files|] == t.files;
  }

  function StatMap(stats: seq<Stat>): map<Str, U64> {
    if stats == [] then map[] else
      var last := stats[|stats| - 1];
      StatMap(stats[..|stats| - 1])[last.name := last.value]
  }

  /** Having read the first i statistics, and where the next one lies. */
  ghost predicate StatsRead(img: seq<Byte>, start: nat, stats: seq<Stat>, i: nat, pos: nat, r: map<Str, U64>) {
    && i <= |stats|
    && At(img, start, Cat(EncStat, stats))
    && pos == start + |Cat(EncStat, stats[..i])|
    && r == StatMap(stats[..i])
  }

  lemma StatNext(img: seq<Byte>, start: nat, stats: seq<Stat>, i: nat, pos: nat, r: map<Str, U64>)
    requires StatsRead(img, start, stats, i, pos, r) && i < |stats|
    ensures At(img, pos, U64Bytes(stats[i].value)) && At(img, pos + 8, LE(|stats[i].name|, 4))
    ensures At(img, pos + 12, stats[i].name) && pos + 12 + |stats[i].name| <= |img|
    ensures StatsRead(img, start, stats, i + 1, pos + 12 + |stats[i].name|, r[stats[i].name := stats[i].value])
  {
    hide At, EncStat, LE;
    CatAt(img, start, EncStat, stats, i);
    StatFields(img, pos, stats[i]);
    assert stats[..i + 1][..i] == stats[..i];
  }

  lemma StatsEnd(img: seq<Byte>, start: nat, stats: seq<Stat>, pos: nat, r: map<Str, U64>)
    requires StatsRead(img, start, stats, |stats|, pos, r)
    ensures pos == start + |Cat(EncStat, stats)| && r == StatMap(stats)
  {
    assert stats[..|stats|] == stats;
  }

  /** The statistics that were written, even if fewer than announced. */
  method GetStats(img: seq<Byte>, ghost h: FileHeader, ghost stats: seq<Stat>) returns (r: map<Str, U64>)
    requires |img| <= MAX_FILE_SIZE && At(img, 0, EncHeader(h)) && StatsOk(img, h, stats)
    ensures r == StatMap(stats)
  {
    hide At, EncHeader, EncStat, StatsRead, LE;
    var header := ReadHeader(img, h);
    if header.statsCount == 0 || header.statsPos == 0 {
      return map[];
    }
    AtBounds(img, h.statsPos, Cat(EncStat, stats));
    if header.statsPos >= |img| {
      NoStatsLeft(stats);
      return map[];
    }
    r := ReadStats(img, header.statsPos, header.statsCount, h, stats);
  }

  /** The loop over the table. It stops at the first entry that the file has no room for. */
  method ReadStats(img: seq<Byte>, start: nat, count: nat, ghost h: FileHeader, ghost stats: seq<Stat>)
    returns (r: map<Str, U64>)
    requires |img| <= MAX_FILE_SIZE && StatsOk(img, h, stats) && start == h.statsPos > 0 && count == h.statsCount > 0
    ensures r == StatMap(stats)
  {
    hide At, EncStat, StatMap, LE;
    var pos: nat := start;
    r := map[];
    StatsStart(img, start, stats);
    var i := 0;
    while i < count
      invariant i <= |stats| && i <= count
      invariant StatsRead(img, start, stats, i, pos, r)
      decreases count - i
    {
      if i < |stats| {
        StatNext(img, start, stats, i, pos, r);
      } else {
        StatsEnd(img, start, stats, pos, r);
      }
      if pos + 8 + 4 > |img| {
        break;
      }
      var value := Expect64(img, pos, stats[i].value);
      var nameLen := Expect32(img, pos + 8, |stats[i].name|);
      if pos + 12 + nameLen > |img| {
        break;
      }
      var name := ReadName(img, pos + 12, nameLen, stats[i].name);
      pos := pos + 12 + nameLen;
      r := r[name := value];
      i := i + 1;
    }
    StatsEnd(img, start, stats, pos, r);
  }

  lemma StatsStart(img: seq<Byte>, start: nat, stats: seq<Stat>)
    requires At(img, start, Cat(EncStat, stats))
    ensures StatsRead(img, start, stats, 0, start, map[])
  {
    assert stats[..0] == [];
  }

  lemma NoStatsLeft(stats: seq<Stat>)
    requires |Cat(EncStat, stats)| == 0
    ensures stats == []
  {
    CatAtLeast(EncStat, stats, 12);
  }

  lemma StatFields(img: seq<Byte>, pos: int, s: Stat)
    requires At(img, pos, EncStat(s))
    ensures At(img, pos, U64Bytes(s.value)) && At(img, pos + 8, LE(|s.name|, 4)) && At(img, pos + 12, s.name)
    ensures |EncStat(s)| == 12 + |s.name| && pos + 12 + |s.name| <= |img|
  {
    AtSplit(img, pos, U64Bytes(s.value), EncStr(s.name));
    AtSplit(img, pos + 8, LE(|s.name|, 4), s.name);
  }

  /** A finished image serves a reader of snapshots. */
  lemma CoreHolds(img: seq<Byte>, h: FileHeader, snaps: seq<Snap>, heap: map<nat, Rec>, t: Trailer)
    requires Core(img, h, snaps, heap, t)
    ensures Holds(img, snaps)
    ensures At(img, HEAP_POS_AT, U64Bytes(h.heapPos))
  {
    HeaderAt(img, h);
    hide At, LE, SnapsOk, HeapAt, EncHeader;
  }
}
