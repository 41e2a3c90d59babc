/** `finalize`: the sections behind the heap, the complete header, the output file. */
module Finalizing {
  import opened Bytes
  import opened Format
  import opened Log
  import opened Layout
  import opened Keeps
  import opened Reading
  import opened Writing
  import opened Compaction
  import opened Runs

  datatype Final = BadLevel | NothingOpen | Discarded | Output(bytes: seq<Byte>)

  /** Bytes behind the heap belong to no part of the layout. */
  lemma BehindHeapKeeps(img: seq<Byte>, img': seq<Byte>, c: Counters, pos: nat, bytes: seq<Byte>, snaps: seq<Snap>,
                        s: State)
    requires Inv(img, c, snaps, s) && Wrote(img, img', pos, bytes) && c.heapStart + c.heapOffset <= pos
    ensures Inv(img', c, snaps, s)
  {
    hide At, SameOn, HeaderOk, HeapOk, CommittedOk, PendingOk, TablesGood;
    Parts(img, c, snaps, s);
    InvBounds(img, c, snaps, s);
    AtBounds(img', pos, bytes);
    Narrow(img, img', 0, pos, 0, FILE_HEADER_SIZE);
    HeaderFrame(img, img', c);
    Narrow(img, img', 0, pos, RECORDS_START, c.writeOffset);
    CommittedFrame(img, img', c, snaps, s.committed, c.writeOffset);
    PendingFrame(img, img', c, snaps, s.pending);
    Narrow(img, img', 0, pos, c.heapStart, c.heapStart + c.heapOffset);
    HeapFrame(img, img', c, s.heap);
    Parts(img', c, snaps, s);
  }

  /** Write `bytes` behind what `finalize` has written so far, if the file can grow that far. */
  method PutBehind(w: SnapshotWriter, ghost start: nat, ghost tail: seq<Byte>, pos: nat, bytes: seq<Byte>,
                   ghost size: nat)
    returns (ok: bool)
    requires w.Valid() && w.initialized
    requires start == w.heapStart + w.heapOffset && pos == start + |tail| && At(w.mem[..], start, tail)
    modifies w`mem, w`doublings, w`extensions, w`attempts, w.mem, w.reader
    ensures w.Valid() && (w.mem == old(w.mem) || fresh(w.mem))
    ensures At(w.mem[..], start, if ok then tail + bytes else tail)
    ensures ok == old(w.Grants(pos + |bytes|))
    ensures old(w.CanHold(size)) ==> w.CanHold(size) && (pos + |bytes| <= size ==> ok)
  {
    hide Inv, Growth, At;
    ghost var img := w.mem[..];
    AtBounds(img, start, tail);
    ok := true;
    Unchanged(img, 0, |img|);
    if pos + |bytes| > w.mem.Length {
      ok := w.ExtendToFit(pos + |bytes|);
    }
    TailKept(img, w.mem[..], |img|, start, tail);
    if !ok {
      return;
    }
    ghost var img1, c := w.mem[..], w.C();
    w.Poke(pos, bytes);
    BehindHeapKeeps(img1, w.mem[..], c, pos, bytes, w.snaps, w.st);
    TailGrows(img1, w.mem[..], start, tail, bytes);
  }

  /** Growing a file keeps its bytes. */
  lemma TailKept(img: seq<Byte>, img': seq<Byte>, size: nat, start: nat, tail: seq<Byte>)
    requires At(img, start, tail) && size == |img| && SameOn(img, img', 0, size)
    ensures At(img', start, tail)
  {
    AtSame(img, img', 0, |img|, start, tail);
  }

  lemma TailGrows(img: seq<Byte>, img': seq<Byte>, start: nat, tail: seq<Byte>, bytes: seq<Byte>)
    requires At(img, start, tail) && Wrote(img, img', start + |tail|, bytes)
    ensures At(img', start, tail + bytes)
  {
    AtSame(img, img', 0, start + |tail|, start, tail);
    AtSplit(img', start, tail, bytes);
  }

  /** One entry of a table more behind what is there. */
  lemma EntryPut<T>(enc: T -> seq<Byte>, tail: seq<Byte>, entries: seq<T>, n: nat)
    requires n < |entries|
    ensures Cat(enc, entries[..n]) + enc(entries[n]) == Cat(enc, entries[..n + 1])
    ensures tail + Cat(enc, entries[..n]) + enc(entries[n]) == tail + Cat(enc, entries[..n + 1])
    ensures |Cat(enc, entries[..n + 1])| == |Cat(enc, entries[..n])| + |enc(entries[n])| <= |Cat(enc, entries)|
  {
    CatPush(enc, entries, n);
    CatPrefix(enc, entries, n + 1);
  }

  lemma NoEntries<T>(enc: T -> seq<Byte>, tail: seq<Byte>, entries: seq<T>)
    ensures Cat(enc, entries[..0]) == [] && tail + Cat(enc, entries[..0]) == tail
  {
  }

  /** The file table: entries until one does not fit. */
  method PutFiles(w: SnapshotWriter, files: seq<SourceFile>, ghost size: nat) returns (written: nat, pos: nat)
    requires w.Valid() && w.initialized
    modifies w`mem, w`doublings, w`extensions, w`attempts, w.mem, w.reader
    ensures w.Valid() && (w.mem == old(w.mem) || fresh(w.mem))
    ensures old(w.CanHold(size)) ==>
      w.CanHold(size) && (w.heapStart + w.heapOffset + |Cat(EncFile, files)| <= size ==> written == |files|)
    ensures written <= |files| && pos == w.heapStart + w.heapOffset + |Cat(EncFile, files[..written])|
    ensures At(w.mem[..], w.heapStart + w.heapOffset, Cat(EncFile, files[..written]))
  {
    hide Inv, Growth, At, EncFile, Cat, SnapshotWriter.CanHold, SnapshotWriter.Grants;
    ghost var start := w.heapStart + w.heapOffset;
    InvOrder(w.mem[..], w.C(), w.snaps, w.st);
    NothingAt(w.mem[..], start);
    NoEntries(EncFile, [], files);
    written, pos := 0, w.heapStart + w.heapOffset;
    while written < |files|
      invariant w.Valid() && (w.mem == old(w.mem) || fresh(w.mem))
      invariant old(w.CanHold(size)) ==> w.CanHold(size)
      invariant written <= |files| && pos == start + |Cat(EncFile, files[..written])|
      invariant At(w.mem[..], start, Cat(EncFile, files[..written]))
    {
      EntryPut(EncFile, [], files, written);
      var ok := PutBehind(w, start, Cat(EncFile, files[..written]), pos, EncFile(files[written]), size);
      if !ok {
        break;
      }
      pos := pos + |EncFile(files[written])|;
      written := written + 1;
    }
  }

  /** The statistics: entries until one does not fit. */
  method PutStats(w: SnapshotWriter, ghost start: nat, ghost tail: seq<Byte>, pos: nat, stats: seq<Stat>,
                  ghost size: nat)
    returns (ghost written: nat, end: nat)
    requires w.Valid() && w.initialized
    requires start == w.heapStart + w.heapOffset && pos == start + |tail| && At(w.mem[..], start, tail)
    modifies w`mem, w`doublings, w`extensions, w`attempts, w.mem, w.reader
    ensures w.Valid() && (w.mem == old(w.mem) || fresh(w.mem))
    ensures old(w.CanHold(size)) && pos + |Cat(EncStat, stats)| <= size ==> written == |stats|
    ensures written <= |stats| && end == pos + |Cat(EncStat, stats[..written])|
    ensures At(w.mem[..], start, tail + Cat(EncStat, stats[..written]))
  {
    hide Inv, Growth, At, EncStat, Cat, SnapshotWriter.Valid, SnapshotWriter.CanHold, SnapshotWriter.Grants;
    var n := 0;
    end := pos;
    NoEntries(EncStat, tail, stats);
    while n < |stats|
      invariant w.Valid() && (w.mem == old(w.mem) || fresh(w.mem))
      invariant old(w.CanHold(size)) ==> w.CanHold(size)
      invariant n <= |stats| && end == pos + |Cat(EncStat, stats[..n])|
      invariant At(w.mem[..], start, tail + Cat(EncStat, stats[..n]))
    {
      EntryPut(EncStat, tail, stats, n);
      var ok := PutBehind(w, start, tail + Cat(EncStat, stats[..n]), end, EncStat(stats[n]), size);
      if !ok {
        break;
      }
      end := end + |EncStat(stats[n])|;
      n := n + 1;
    }
    written := n;
  }

  /** The statistics, if there are any to write. */
  method PutStatsIfAny(w: SnapshotWriter, ghost start: nat, ghost tail: seq<Byte>, pos: nat, stats: Option<seq<Stat>>,
                       ghost size: nat)
    returns (ghost written: seq<Stat>, end: nat)
    requires w.Valid() && w.initialized
    requires start == w.heapStart + w.heapOffset && pos == start + |tail| && At(w.mem[..], start, tail)
    modifies w`mem, w`doublings, w`extensions, w`attempts, w.mem, w.reader
    ensures w.Valid() && (w.mem == old(w.mem) || fresh(w.mem))
    ensures match stats { case Some(all) => written <= all case None => written == [] }
    ensures old(w.CanHold(size)) && stats.Some? && pos + |Cat(EncStat, stats.value)| <= size ==> written == stats.value
    ensures end == pos + |Cat(EncStat, written)| && At(w.mem[..], start, tail + Cat(EncStat, written))
  {
    hide At, EncStat, SnapshotWriter.Valid, SnapshotWriter.CanHold, SnapshotWriter.Grants;
    written, end := [], pos;
    if stats.Some? {
      ghost var n;
      n, end := PutStats(w, start, tail, pos, stats.value, size);
      written := stats.value[..n];
    } else {
      NoStats(tail);
    }
  }

  /** One of the sections between file table and statistics; nothing of it if it does not fit. */
  method PutSection(w: SnapshotWriter, ghost start: nat, ghost tail: seq<Byte>, pos: nat, bytes: seq<Byte>,
                    ghost size: nat)
    returns (written: seq<Byte>)
    requires w.Valid() && w.initialized
    requires start == w.heapStart + w.heapOffset && pos == start + |tail| && At(w.mem[..], start, tail)
    modifies w`mem, w`doublings, w`extensions, w`attempts, w.mem, w.reader
    ensures w.Valid() && (w.mem == old(w.mem) || fresh(w.mem))
    ensures written == bytes || written == []
    ensures old(w.CanHold(size)) ==> w.CanHold(size) && (pos + |bytes| <= size ==> written == bytes)
    ensures At(w.mem[..], start, tail + written)
  {
    hide Inv, Growth, At;
    if bytes == [] {
      assert tail + [] == tail;
      return [];
    }
    var ok := PutBehind(w, start, tail, pos, bytes, size);
    assert tail + [] == tail;
    written := if ok then bytes else [];
  }

  /** Environment, manifest and metadata, one behind the other. */
  method PutTrailingSections(w: SnapshotWriter, ghost start: nat, ghost tail: seq<Byte>, pos: nat,
                             env: seq<Byte>, manifest: seq<Byte>, metadata: seq<Byte>, ghost size: nat)
    returns (envWritten: seq<Byte>, manifestWritten: seq<Byte>, metadataWritten: seq<Byte>)
    requires w.Valid() && w.initialized
    requires start == w.heapStart + w.heapOffset && pos == start + |tail| && At(w.mem[..], start, tail)
    modifies w`mem, w`doublings, w`extensions, w`attempts, w.mem, w.reader
    ensures w.Valid() && (w.mem == old(w.mem) || fresh(w.mem))
    ensures envWritten in {env, []} && manifestWritten in {manifest, []} && metadataWritten in {metadata, []}
    ensures At(w.mem[..], start, tail + envWritten + manifestWritten + metadataWritten)
    ensures old(w.CanHold(size)) ==>
      && w.CanHold(size)
      && (pos + |env| + |manifest| + |metadata| <= size ==>
          envWritten == env && manifestWritten == manifest && metadataWritten == metadata)
  {
    hide Inv, Growth, At;
    ghost var fits := w.CanHold(size);
    envWritten := PutSection(w, start, tail, pos, env, size);
    var manifestPos := pos + |envWritten|;
    manifestWritten := PutSection(w, start, tail + envWritten, manifestPos, manifest, size);
    var metadataPos := manifestPos + |manifestWritten|;
    metadataWritten := PutSection(w, start, tail + envWritten + manifestWritten, metadataPos, metadata, size);
  }

  /** The bytes behind the heap. */
  function TailBytes(t: Trailer): seq<Byte> {
    Cat(EncFile, t.files) + t.env + t.manifest + t.metadata + Cat(EncStat, t.stats)
  }

  /** Where the sections are, given where the heap ends. */
  ghost predicate Placed(h: FileHeader, start: nat, t: Trailer, announced: nat, collecting: bool) {
    && h.fileTablePos == start && h.fileTableCount == |t.files|
    && h.envPos == start + |Cat(EncFile, t.files)| && h.envSize == |t.env|
    && h.manifestPos == h.envPos + |t.env| && h.manifestSize == |t.manifest|
    && h.metadataPos == h.manifestPos + |t.manifest| && h.metadataSize == |t.metadata|
    && (if collecting then h.statsPos == h.metadataPos + |t.metadata| && h.statsCount == announced
        else h.statsPos == 0 && h.statsCount == 0 && t.stats == [])
    && |t.stats| <= announced
  }

  lemma SectionsAt(img: seq<Byte>, start: nat, t: Trailer)
    requires At(img, start, TailBytes(t))
    ensures
      var p1 := start + |Cat(EncFile, t.files)|;
      var p2 := p1 + |t.env|;
      var p3 := p2 + |t.manifest|;
      && At(img, start, Cat(EncFile, t.files)) && At(img, p1, t.env) && At(img, p2, t.manifest)
      && At(img, p3, t.metadata)
      && At(img, p3 + |t.metadata|, Cat(EncStat, t.stats))
  {
    hide At, EncFile, EncStat;
    var a := Cat(EncFile, t.files);
    var b := a + t.env;
    var c := b + t.manifest;
    AtSplit(img, start, c + t.metadata, Cat(EncStat, t.stats));
    AtSplit(img, start, c, t.metadata);
    AtSplit(img, start, b, t.manifest);
    AtSplit(img, start, a, t.env);
  }

  /** The last two writes of `finalize` complete the header and disturb nothing. */
  lemma HeaderFinished(img: seq<Byte>, i1: seq<Byte>, img': seq<Byte>, c: Counters, h: FileHeader)
    requires HeaderOk(img, c) && RECORDS_START <= |img|
    requires h.magic == MAGIC_NUMBER && h.version == FORMAT_VERSION
    requires h.lastSnapshotPos == c.lastSnapshotPos && h.snapshotCount == c.snapshotCount
    requires Wrote(img, i1, LAST_SNAPSHOT_AT, LE(c.lastSnapshotPos, 8)) && Wrote(i1, img', HEAP_POS_AT, PlaceBytes(h))
    ensures At(img', 0, EncHeader(h)) && |img'| == |img| && SameOn(img, img', RECORDS_START, |img|)
  {
    hide At, LE, EncHeader, PlaceBytes, SameOn;
    var last := LE(c.lastSnapshotPos, 8);
    WroteThere(img, i1, LAST_SNAPSHOT_AT, last);
    WroteThere(i1, img', HEAP_POS_AT, PlaceBytes(h));
    WroteElsewhere(i1, img', HEAP_POS_AT, PlaceBytes(h), LAST_SNAPSHOT_AT, last);
    TwiceElsewhere(img, i1, img', LAST_SNAPSHOT_AT, last, HEAP_POS_AT, PlaceBytes(h), 0, U32Bytes(MAGIC_NUMBER));
    TwiceElsewhere(img, i1, img', LAST_SNAPSHOT_AT, last, HEAP_POS_AT, PlaceBytes(h), VERSION_AT,
                   U32Bytes(FORMAT_VERSION));
    TwiceElsewhere(img, i1, img', LAST_SNAPSHOT_AT, last, HEAP_POS_AT, PlaceBytes(h), SNAPSHOT_COUNT_AT,
                   LE(c.snapshotCount, 4));
    PlaceAt(img', h);
    HeaderAt(img', h);
    BehindBoth(img, i1, img', last, PlaceBytes(h));
  }

  lemma BehindBoth(img: seq<Byte>, i1: seq<Byte>, img': seq<Byte>, last: seq<Byte>, places: seq<Byte>)
    requires Wrote(img, i1, LAST_SNAPSHOT_AT, last) && |last| == 8 && RECORDS_START <= |img|
    requires Wrote(i1, img', HEAP_POS_AT, places) && |places| == FILE_HEADER_SIZE - HEAP_POS_AT
    ensures |img'| == |img| && SameOn(img, img', RECORDS_START, |img|)
  {
  }

  /** Cutting an image after `total` bytes keeps what lies before. */
  lemma AtPrefix(img: seq<Byte>, total: nat, pos: int, bytes: seq<Byte>)
    requires At(img, pos, bytes) && pos + |bytes| <= total <= |img|
    ensures At(img[..total], pos, bytes)
  {
    AtSame(img, img[..total], 0, total, pos, bytes);
  }

  /** The data of the working file, complete. */
  lemma WorkingFileComplete(img: seq<Byte>, i1: seq<Byte>, img': seq<Byte>, c: Counters, snaps: seq<Snap>, s: State,
                            h: FileHeader, t: Trailer, announced: nat, collecting: bool, total: nat)
    requires Inv(img, c, snaps, s)
    requires At(img, c.heapStart + c.heapOffset, TailBytes(t)) && total == c.heapStart + c.heapOffset + |TailBytes(t)|
    requires h.magic == MAGIC_NUMBER && h.version == FORMAT_VERSION && h.heapPos == c.heapStart
    requires h.lastSnapshotPos == c.lastSnapshotPos && h.snapshotCount == c.snapshotCount
    requires Placed(h, c.heapStart + c.heapOffset, t, announced, collecting)
    requires Wrote(img, i1, LAST_SNAPSHOT_AT, LE(c.lastSnapshotPos, 8)) && Wrote(i1, img', HEAP_POS_AT, PlaceBytes(h))
    ensures total <= |img'| && Complete(img'[..total], h, snaps, s.heap, t)
    ensures Sequential(h, snaps, c.writeOffset, total)
  {
    hide At, LE, SameOn, Wrote, PlaceBytes, EncHeader, HeaderOk, HeapOk, CommittedOk, PendingOk, TablesGood, SnapsOk,
         EncFile, EncStat, Cat, TailBytes;
    var start := c.heapStart + c.heapOffset;
    Parts(img, c, snaps, s);
    InvBounds(img, c, snaps, s);
    InvFlags(img, c, snaps, s);
    CommittedCount(img, c, snaps, s.committed);
    AtBounds(img, start, TailBytes(t));
    HeaderFinished(img, i1, img', c, h);
    var data := img'[..total];
    DataSame(img, img', total);
    AtPrefix(img', total, 0, EncHeader(h));
    SnapsFrame(img, data, snaps, total);
    Narrow(img, data, RECORDS_START, total, c.heapStart, start);
    HeapFrame(img, data, c, s.heap);
    HeapIsAt(data, c, s.heap);
    AtSame(img, data, RECORDS_START, total, start, TailBytes(t));
    SectionsAt(data, start, t);
    TailSize(t);
  }

  lemma CommittedCount(img: seq<Byte>, c: Counters, snaps: seq<Snap>, committed: seq<SnapData>)
    requires CommittedOk(img, c, snaps, committed)
    ensures c.snapshotCount == |snaps| && c.lastSnapshotPos == LastPos(snaps) && SnapsOk(img, snaps)
  {
    hide SnapsOk;
  }

  lemma HeapIsAt(img: seq<Byte>, c: Counters, heap: map<nat, Rec>)
    requires HeapOk(img, c, heap)
    ensures HeapAt(img, c.heapStart, heap)
  {
    hide At, EncRec;
  }

  lemma TailIs(t: Trailer, tail: seq<Byte>)
    requires tail == Cat(EncFile, t.files) + t.env + t.manifest + t.metadata
    ensures TailBytes(t) == tail + Cat(EncStat, t.stats)
  {
  }

  lemma TailSize(t: Trailer)
    ensures |TailBytes(t)| == |Cat(EncFile, t.files)| + |t.env| + |t.manifest| + |t.metadata| + |Cat(EncStat, t.stats)|
  {
  }

  lemma DataSame(img: seq<Byte>, img': seq<Byte>, total: nat)
    requires SameOn(img, img', RECORDS_START, |img|) && |img'| == |img| && RECORDS_START <= total <= |img|
    ensures SameOn(img, img'[..total], RECORDS_START, total)
  {
  }

  lemma FilesFit(files: seq<SourceFile>)
    requires |Cat(EncFile, files)| <= MAX_FILE_SIZE
    ensures |files| < 0x1_0000_0000
  {
    CatAtLeast(EncFile, files, 8);
  }

  /** Records, gap and heap in; the output without the gap out. Compression is not modelled. */
  method WriteOutput(data: seq<Byte>, recordsEnd: nat, heapStart: nat, ghost h: FileHeader, ghost snaps: seq<Snap>,
                     ghost heap: map<nat, Rec>, ghost t: Trailer) returns (out: seq<Byte>, ghost h': FileHeader)
    requires Complete(data, h, snaps, heap, t) && Sequential(h, snaps, recordsEnd, |data|) && h.heapPos == heapStart
    ensures |out| == |data| - (heapStart - recordsEnd)
    ensures Complete(out, h', snaps, heap, t)
  {
    hide At, SnapsOk, EncHeader, HeapAt, StatsOk, LE;
    var gapSize := 0;
    if recordsEnd < heapStart {
      gapSize := heapStart - recordsEnd;
    }
    var header := ReadHeader(data, h);
    if gapSize == 0 {
      out, h' := data, h;
      return;
    }
    var adjusted := Adjust(header, gapSize);
    out := Segments(data, adjusted, recordsEnd, heapStart);
    Stayed(data, adjusted, recordsEnd, heapStart);
    CompactionPreserves(data, h, snaps, heap, t, recordsEnd);
    h' := adjusted;
  }

  /** What the file can hold of what `finalize` is given. */
  ghost predicate PartOf(t: Trailer, files: seq<SourceFile>, env: seq<Byte>, manifest: seq<Byte>, metadata: seq<Byte>,
                         stats: Option<seq<Stat>>)
  {
    && t.files <= files
    && (t.env == env || t.env == []) && (t.manifest == manifest || t.manifest == [])
       && (t.metadata == metadata || t.metadata == [])
    && match stats { case Some(all) => t.stats <= all case None => t.stats == [] }
  }

  /** Everything that `finalize` is given. */
  function AllSections(files: seq<SourceFile>, env: seq<Byte>, manifest: seq<Byte>, metadata: seq<Byte>,
                       stats: Option<seq<Stat>>): Trailer
  {
    Trailer(files, env, manifest, metadata, if stats.Some? then stats.value else [])
  }

  /** Write all sections behind the heap. */
  method PutEverything(w: SnapshotWriter, files: seq<SourceFile>, env: seq<Byte>, manifest: seq<Byte>,
                       metadata: seq<Byte>, stats: Option<seq<Stat>>)
    returns (filesWritten: nat, tableEnd: nat, envWritten: seq<Byte>, manifestWritten: seq<Byte>,
             metadataWritten: seq<Byte>, total: nat,
             ghost t: Trailer)
    requires w.Valid() && w.initialized
    modifies w`mem, w`doublings, w`extensions, w`attempts, w.mem, w.reader
    ensures w.Valid() && (w.mem == old(w.mem) || fresh(w.mem))
    ensures PartOf(t, files, env, manifest, metadata, stats)
    ensures old(w.CanHold(w.heapStart + w.heapOffset
                          + |TailBytes(AllSections(files, env, manifest, metadata, stats))|)) ==>
      t == AllSections(files, env, manifest, metadata, stats)
    ensures At(w.mem[..], w.heapStart + w.heapOffset, TailBytes(t))
    ensures total == w.heapStart + w.heapOffset + |TailBytes(t)|
    ensures filesWritten == |t.files| && tableEnd == w.heapStart + w.heapOffset + |Cat(EncFile, t.files)|
    ensures envWritten == t.env && manifestWritten == t.manifest && metadataWritten == t.metadata
  {
    hide At, EncFile, EncStat, Cat, TailBytes, SnapshotWriter.Valid, SnapshotWriter.CanHold, SnapshotWriter.Grants;
    ghost var start := w.heapStart + w.heapOffset;
    ghost var size := start + |TailBytes(AllSections(files, env, manifest, metadata, stats))|;
    ghost var fits := w.CanHold(size);
    TailSize(AllSections(files, env, manifest, metadata, stats));
    filesWritten, tableEnd := PutFiles(w, files, size);
    ghost var tail := Cat(EncFile, files[..filesWritten]);
    assert fits ==> filesWritten == |files| && files[..filesWritten] == files;
    envWritten, manifestWritten, metadataWritten :=
      PutTrailingSections(w, start, tail, tableEnd, env, manifest, metadata, size);
    tail := tail + envWritten + manifestWritten + metadataWritten;
    ghost var statsWritten;
    statsWritten, total :=
      PutStatsIfAny(w, start, tail, tableEnd + |envWritten| + |manifestWritten| + |metadataWritten|, stats, size);
    t := Trailer(files[..filesWritten], envWritten, manifestWritten, metadataWritten, statsWritten);
    TailIs(t, tail);
    TailSize(t);
  }

  /** Write all sections and complete the header of the working file. */
  method CompleteFile(w: SnapshotWriter, files: seq<SourceFile>, env: seq<Byte>, manifest: seq<Byte>,
                      metadata: seq<Byte>, stats: Option<seq<Stat>>)
    returns (total: nat, ghost h: FileHeader, ghost t: Trailer)
    requires w.Valid() && w.initialized && (stats.Some? ==> |stats.value| < 0x1_0000_0000)
    modifies w`mem, w`doublings, w`extensions, w`attempts, w.mem, w.reader
    ensures total <= w.mem.Length && Complete(w.mem[..total], h, w.snaps, w.st.heap, t)
    ensures Sequential(h, w.snaps, w.writeOffset, total) && h.heapPos == w.heapStart
    ensures PartOf(t, files, env, manifest, metadata, stats)
    ensures old(w.CanHold(w.heapStart + w.heapOffset
                          + |TailBytes(AllSections(files, env, manifest, metadata, stats))|)) ==>
      t == AllSections(files, env, manifest, metadata, stats)
    ensures w.Shared() && w.reader == old(w.reader)
  {
    hide Inv, Growth, At, Wrote, PlaceBytes, Complete, EncFile, EncStat, Cat, TailBytes, SnapshotWriter.CanHold,
         SnapshotWriter.Grants;
    var filesWritten, tableEnd, envWritten, manifestWritten, metadataWritten;
    filesWritten, tableEnd, envWritten, manifestWritten, metadataWritten, total, t :=
      PutEverything(w, files, env, manifest, metadata, stats);
    var manifestPos := tableEnd + |envWritten|;
    var metadataPos := manifestPos + |manifestWritten|;
    var statsPos, statsCount := 0, 0;
    if stats.Some? {
      statsPos, statsCount := metadataPos + |metadataWritten|, |stats.value|;
    }
    h := FinishHeader(w, tableEnd, filesWritten, |envWritten|, manifestPos, |manifestWritten|, metadataPos,
                      |metadataWritten|, statsPos, statsCount, total, t, if stats.Some? then |stats.value| else 0,
                      stats.Some?);
  }

  lemma NoStats(tail: seq<Byte>)
    ensures tail + Cat(EncStat, []) == tail
  {
  }

  method FinishHeader(w: SnapshotWriter, tableEnd: nat, filesWritten: nat, envSize: nat, manifestPos: nat,
                      manifestSize: nat, metadataPos: nat, metadataSize: nat, statsPos: nat, statsCount: nat,
                      total: nat, ghost t: Trailer, ghost announced: nat, ghost collecting: bool)
    returns (ghost h: FileHeader)
    requires w.Valid() && w.initialized
    requires At(w.mem[..], w.heapStart + w.heapOffset, TailBytes(t))
    requires total == w.heapStart + w.heapOffset + |TailBytes(t)|
    requires filesWritten == |t.files| && tableEnd == w.heapStart + w.heapOffset + |Cat(EncFile, t.files)|
    requires envSize == |t.env| && manifestPos == tableEnd + envSize && manifestSize == |t.manifest|
    requires metadataPos == manifestPos + manifestSize && metadataSize == |t.metadata|
    requires |t.stats| <= announced < 0x1_0000_0000
    requires if collecting then statsPos == metadataPos + metadataSize && statsCount == announced
      else statsPos == 0 && statsCount == 0 && t.stats == []
    modifies w.mem
    ensures total <= w.mem.Length && Complete(w.mem[..total], h, w.snaps, w.st.heap, t)
    ensures Sequential(h, w.snaps, w.writeOffset, total) && h.heapPos == w.heapStart
  {
    hide Inv, Growth, At, Wrote, PlaceBytes, Complete, EncFile, EncStat, Cat, TailBytes, LE;
    ghost var img, c := w.mem[..], w.C();
    TailSize(t);
    HeaderFits(img, c, w.snaps, w.st, t);
    var header :=
      FileHeader(MAGIC_NUMBER, FORMAT_VERSION, w.lastSnapshotPos, w.snapshotCount, w.heapStart,
                 w.heapStart + w.heapOffset, filesWritten, tableEnd, envSize, manifestPos, manifestSize, metadataPos,
                 metadataSize, statsPos, statsCount);
    w.Poke(LAST_SNAPSHOT_AT, LE(w.lastSnapshotPos, 8));
    ghost var i1 := w.mem[..];
    w.Poke(HEAP_POS_AT, PlaceBytes(header));
    h := header;
    WorkingFileComplete(img, i1, w.mem[..], c, w.snaps, w.st, h, t, announced, collecting, total);
  }

  lemma HeaderFits(img: seq<Byte>, c: Counters, snaps: seq<Snap>, s: State, t: Trailer)
    requires Inv(img, c, snaps, s) && At(img, c.heapStart + c.heapOffset, TailBytes(t))
    ensures FILE_HEADER_SIZE <= |img| && c.heapStart + c.heapOffset + |TailBytes(t)| <= MAX_FILE_SIZE
    ensures c.lastSnapshotPos <= MAX_FILE_SIZE && c.snapshotCount < 0x1_0000_0000 && |t.files| < 0x1_0000_0000
  {
    hide At, Cat, TailBytes, EncFile, EncStat, SnapsOk;
    InvOrder(img, c, snaps, s);
    InvBounds(img, c, snaps, s);
    InvFlags(img, c, snaps, s);
    InvHolds(img, c, snaps, s);
    SnapCount(img, c, snaps, s);
    AtBounds(img, c.heapStart + c.heapOffset, TailBytes(t));
    TailSize(t);
    FilesFit(t.files);
  }

  lemma SnapCount(img: seq<Byte>, c: Counters, snaps: seq<Snap>, s: State)
    requires Inv(img, c, snaps, s)
    ensures c.snapshotCount == |snaps|
  {
    hide At, SnapsOk, HeapOk, PendingOk, TablesGood, SnapIs, HeaderOk;
    Parts(img, c, snaps, s);
  }

  /**
   * Finish and let go of the working file. The output holds every committed snapshot, every heap
   * record, and of the sections what fitted: all of them if the file can hold them.
   */
  method Finalize(w: SnapshotWriter, toFile: bool, compressionLevel: int, files: seq<SourceFile>, env: seq<Byte>,
                  manifest: seq<Byte>, metadata: seq<Byte>, stats: Option<seq<Stat>>)
    returns (r: Final, ghost h: FileHeader, ghost t: Trailer)
    requires w.Valid() && (stats.Some? ==> |stats.value| < 0x1_0000_0000)
    modifies w, w.mem, w.reader
    ensures compressionLevel < 0 || compressionLevel > 22 <==> r.BadLevel?
    ensures r.BadLevel? ==> w.initialized == old(w.initialized) && w.st == old(w.st)
    ensures !r.BadLevel? ==> !w.initialized && (old(w.initialized) ==> if toFile then r.Output? else r.Discarded?)
    ensures !r.BadLevel? && old(w.reader) != null ==> old(w.reader).data == null
    ensures r.Output? ==> Complete(r.bytes, h, old(w.snaps), old(w.st.heap), t)
    ensures r.Output? ==> PartOf(t, files, env, manifest, metadata, stats)
    ensures
      var all := AllSections(files, env, manifest, metadata, stats);
      r.Output? && old(w.CanHold(w.heapStart + w.heapOffset + |TailBytes(all)|)) ==> t == all
    ensures w.Valid()
  {
    hide Inv, Growth, Complete, Sequential, PartOf, TailBytes;
    h := FileHeader(0, 0, 0, 0, 0, 0, 0, 0, 0, 0, 0, 0, 0, 0, 0);
    t := Trailer([], [], [], [], []);
    if compressionLevel < 0 || compressionLevel > 22 {
      return BadLevel, h, t;
    }
    if !w.initialized {
      return NothingOpen, h, t;
    }
    r := Discarded;
    if toFile {
      var total;
      total, h, t := CompleteFile(w, files, env, manifest, metadata, stats);
      var out;
      out, h := WriteOutput(w.mem[..total], w.writeOffset, w.heapStart, h, w.snaps, w.st.heap, t);
      r := Output(out);
    }
    w.Cleanup();
  }

  // ------------------------------------------------------------------
  // Closing the file and opening the output
  // ------------------------------------------------------------------

  /** What a reader finds in the output. */
  datatype Findings = Findings(views: seq<Snapshot>, objects: seq<Option<Rec>>, sources: seq<SourceFile>,
                               env: seq<Byte>, manifest: seq<Byte>, metadata: seq<Byte>, stats: map<Str, U64>)

  /** Ask a reader of `file` everything: all snapshots, the objects at `offsets`, and the sections. */
  method ReadEverything(file: array<Byte>, offsets: seq<U64>, ghost h: FileHeader, ghost snaps: seq<Snap>,
                        ghost committed: seq<SnapData>, ghost heap: map<nat, Rec>, ghost t: Trailer)
    returns (f: Findings)
    requires Complete(file[..], h, snaps, heap, t) && |snaps| == |committed|
    requires forall k :: 0 <= k < |snaps| ==> SnapIs(snaps[k], committed[k])
    requires forall i :: 0 <= i < |offsets| ==> IsMagicOffset(offsets[i]) || offsets[i] in heap
    requires forall i :: 0 <= i < |t.files| ==> WithinLimits(t.files[i])
    ensures ShowsAll(f.views, committed)
    ensures |f.objects| == |offsets|
    ensures forall i :: 0 <= i < |offsets| ==> f.objects[i] == ObjectAt(heap, offsets[i])
    ensures f.sources == t.files && f.env == t.env && f.manifest == t.manifest
    ensures f.metadata == if t.metadata == [] then [123, 125] else t.metadata
    ensures f.stats == StatMap(t.stats)
  {
    hide At, EncHeader, SnapsOk, StatsOk, EncRec, Shows, SnapIs, LE, StatMap;
    var r := new SnapshotReader(file);
    var img := file[..];
    CoreHolds(img, h, snaps, heap, t);
    var views := r.GetAllSnapshots(snaps);
    forall k | 0 <= k < |views| ensures Shows(views[k], committed[k]) {
      ViewShows(snaps[k], committed[k]);
    }
    var objects := ReadObjects(img, offsets, h, snaps, heap, t);
    var sources := GetAllSourceFiles(img, h, snaps, heap, t);
    var env := GetEnvironmentBlock(img, h, snaps, heap, t);
    var manifest := GetManifest(img, h, snaps, heap, t);
    var metadata := GetMetadata(img, h, snaps, heap, t);
    var stats := GetStats(img, h, t.stats);
    f := Findings(views, objects, sources, env, manifest, metadata, stats);
  }

  method ReadObjects(img: seq<Byte>, offsets: seq<U64>, ghost h: FileHeader, ghost snaps: seq<Snap>,
                     ghost heap: map<nat, Rec>, ghost t: Trailer)
    returns (r: seq<Option<Rec>>)
    requires Core(img, h, snaps, heap, t)
    requires forall i :: 0 <= i < |offsets| ==> IsMagicOffset(offsets[i]) || offsets[i] in heap
    ensures |r| == |offsets|
    ensures forall i :: 0 <= i < |offsets| ==> r[i] == ObjectAt(heap, offsets[i])
  {
    hide At, EncHeader, SnapsOk, EncRec, LE;
    CoreHolds(img, h, snaps, heap, t);
    r := [];
    for i := 0 to |offsets|
      invariant |r| == i
      invariant forall k :: 0 <= k < i ==> r[k] == ObjectAt(heap, offsets[k])
    {
      var obj := ReadObject(img, offsets[i], h.heapPos,
                            if IsMagicOffset(offsets[i]) then Float(0) else heap[offsets[i]]);
      r := r + [obj];
    }
  }

  /**
   * Finalize to a file and open the result: every committed snapshot and every heap record is there,
   * and so is each section as far as the file could hold it.
   */
  method FinalizeAndReopen(w: SnapshotWriter, files: seq<SourceFile>, env: seq<Byte>, manifest: seq<Byte>,
                           metadata: seq<Byte>, stats: Option<seq<Stat>>, offsets: seq<U64>)
    returns (f: Findings, ghost t: Trailer)
    requires w.Valid() && w.initialized && (stats.Some? ==> |stats.value| < 0x1_0000_0000)
    requires forall i :: 0 <= i < |files| ==> WithinLimits(files[i])
    requires forall i :: 0 <= i < |offsets| ==> GoodOffset(w.st, offsets[i])
    modifies w, w.mem, w.reader
    ensures w.Valid() && !w.initialized
    ensures ShowsAll(f.views, old(w.st).committed)
    ensures |f.objects| == |offsets|
    ensures forall i :: 0 <= i < |offsets| ==> f.objects[i] == ObjectAt(old(w.st).heap, offsets[i])
    ensures PartOf(t, files, env, manifest, metadata, stats)
    ensures old(w.CanHold(w.heapStart + w.heapOffset
                          + |TailBytes(AllSections(files, env, manifest, metadata, stats))|)) ==>
      t == AllSections(files, env, manifest, metadata, stats)
    ensures f.sources == t.files && f.env == t.env && f.manifest == t.manifest
    ensures f.metadata == if t.metadata == [] then [123, 125] else t.metadata
    ensures f.stats == StatMap(t.stats)
  {
    hide Inv, Growth, Complete, ShowsAll, StatMap, TailBytes;
    ghost var s, snaps := w.st, w.snaps;
    InvCommitted(w.mem[..], w.C(), snaps, s);
    var r; ghost var h;
    r, h, t := Finalize(w, true, 3, files, env, manifest, metadata, stats);
    var file := NewFile(r.bytes);
    FilesInPrefix(files, t.files);
    f := ReadEverything(file, offsets, h, snaps, s.committed, s.heap, t);
  }

  lemma FilesInPrefix(files: seq<SourceFile>, some: seq<SourceFile>)
    requires some <= files && forall i :: 0 <= i < |files| ==> WithinLimits(files[i])
    ensures forall i :: 0 <= i < |some| ==> WithinLimits(some[i])
  {
    assert forall i :: 0 <= i < |some| ==> some[i] == files[i];
  }

  method NewFile(bytes: seq<Byte>) returns (file: array<Byte>)
    ensures fresh(file) && file[..] == bytes
  {
    file := new Byte[|bytes|](i requires 0 <= i < |bytes| => bytes[i]);
  }
}
