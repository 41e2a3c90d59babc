/** The file format: packed record layouts, their constants and their encodings. */
module Format {
  import opened Bytes

  // ------------------------------------------------------------------
  // Constants
  // ------------------------------------------------------------------

  const INITIAL_FILE_SIZE := 0x100_0000
  const MAX_FILE_SIZE := 0x4_0000_0000
  const MAGIC_NUMBER: U32 := 0x50595442
  const FORMAT_VERSION: U32 := 1
  const BLOCK_SIZE := 4096
  const INITIAL_RECORDS_SIZE := 0x10_0000

  const NONE_OFFSET: U64 := 0xFFFF_FFFF_FFFF_FFFD
  const TRUE_OFFSET: U64 := 0xFFFF_FFFF_FFFF_FFFE
  const FALSE_OFFSET: U64 := 0xFFFF_FFFF_FFFF_FFFF

  predicate IsMagicOffset(offset: U64) {
    offset >= NONE_OFFSET
  }

  const FILE_HEADER_SIZE := 100
  const SNAPSHOT_HEADER_SIZE := 33
  const STACKTRACE_HEADER_SIZE := 41
  const MAP_ENTRY_SIZE := 16

  // Byte offsets of the fields of the file header.
  const VERSION_AT := 4
  const LAST_SNAPSHOT_AT := 8
  const SNAPSHOT_COUNT_AT := 16
  const HEAP_POS_AT := 20
  const FILE_TABLE_POS_AT := 28
  const FILE_TABLE_COUNT_AT := 36
  const ENV_POS_AT := 40
  const ENV_SIZE_AT := 48
  const MANIFEST_POS_AT := 56
  const MANIFEST_SIZE_AT := 64
  const METADATA_POS_AT := 72
  const METADATA_SIZE_AT := 80
  const STATS_POS_AT := 88
  const STATS_COUNT_AT := 96

  // ------------------------------------------------------------------
  // Heap records
  // ------------------------------------------------------------------

  type I64 = x: int | -0x8000_0000_0000_0000 <= x < 0x8000_0000_0000_0000

  datatype Pair = Pair(key: U64, value: U64)

  /** What the records of all serialized kinds carry besides their elements. */
  datatype Meta = Meta(typeName: Str, repr: Str, attrs: seq<Pair>)

  datatype TextKind = StringText | BytesText | BignumText
  datatype SeqKind = ListKind | TupleKind | SetKind

  /** The fourteen kinds of heap record. A float is its 64-bit pattern. */
  datatype Rec =
    | Int64(int64: I64)
    | Float(bits: U64)
    | Text(text: TextKind, chars: Str)
    | Elems(elems: SeqKind, ids: seq<U64>)
    | Dict(pairs: seq<Pair>)
    | SerObject(meta: Meta)
    | SerElems(elems: SeqKind, ids: seq<U64>, meta: Meta)
    | SerDict(pairs: seq<Pair>, meta: Meta)

  function Tag(r: Rec): Byte {
    match r
    case Int64(_) => 0
    case Float(_) => 1
    case Text(StringText, _) => 2
    case Text(BytesText, _) => 3
    case Elems(ListKind, _) => 4
    case Elems(TupleKind, _) => 5
    case Dict(_) => 6
    case Elems(SetKind, _) => 7
    case Text(BignumText, _) => 8
    case SerObject(_) => 9
    case SerElems(ListKind, _, _) => 10
    case SerElems(SetKind, _, _) => 11
    case SerElems(TupleKind, _, _) => 12
    case SerDict(_, _) => 13
  }

  /** Two's complement. */
  function I64Word(v: I64): U64 {
    if v < 0 then v + 0x1_0000_0000_0000_0000 else v
  }

  function WordI64(w: U64): I64 {
    if w < 0x8000_0000_0000_0000 then w else w - 0x1_0000_0000_0000_0000
  }

  function EncStr(s: seq<Byte>): seq<Byte> {
    LE(|s|, 4) + s
  }

  function EncIds(ids: seq<U64>): seq<Byte> {
    LE(|ids|, 4) + Cat(U64Bytes, ids)
  }

  function EncPair(p: Pair): (s: seq<Byte>)
    ensures |s| == 16
  {
    U64Bytes(p.key) + U64Bytes(p.value)
  }

  function EncPairs(pairs: seq<Pair>): seq<Byte> {
    LE(|pairs|, 4) + Cat(EncPair, pairs)
  }

  function EncMeta(m: Meta): seq<Byte> {
    EncStr(m.typeName) + EncStr(m.repr) + EncPairs(m.attrs)
  }

  function EncBody(r: Rec): seq<Byte> {
    match r
    case Int64(v) => U64Bytes(I64Word(v))
    case Float(bits) => U64Bytes(bits)
    case Text(_, s) => EncStr(s)
    case Elems(_, ids) => EncIds(ids)
    case Dict(pairs) => EncPairs(pairs)
    case SerObject(m) => EncMeta(m)
    case SerElems(_, ids, m) => EncIds(ids) + EncMeta(m)
    case SerDict(pairs, m) => EncPairs(pairs) + EncMeta(m)
  }

  function EncRec(r: Rec): seq<Byte> {
    [Tag(r)] + EncBody(r)
  }

  // ------------------------------------------------------------------
  // Snapshot records
  // ------------------------------------------------------------------

  datatype Local = Local(name: Str, pythonId: U64)

  datatype Frame = Frame(filePath: Str, functionName: Str, qualName: Str, line: U32, locals: seq<Local>)

  /** What `beginStacktrace` is told. */
  datatype StackInfo = StackInfo(id: U64, threadName: Str, exceptionId: U64, causeId: U64, contextId: U64)

  datatype Stack = Stack(info: StackInfo, truncated: bool, depthTruncated: bool, frames: seq<Frame>)

  datatype Entry = Entry(pythonId: U64, offset: U64)

  /** A snapshot record together with the links that place it in the file. */
  datatype Snap = Snap(pos: U64, prev: U64, timestamp: U64, truncated: bool, stacks: seq<Stack>, entries: seq<Entry>)

  function EncLocal(l: Local): seq<Byte> {
    U64Bytes(l.pythonId) + EncStr(l.name)
  }

  function EncFrame(f: Frame): seq<Byte> {
    EncStr(f.filePath) + EncStr(f.functionName) + EncStr(f.qualName)
      + U32Bytes(f.line) + LE(|f.locals|, 4) + Cat(EncLocal, f.locals)
  }

  function StackFlags(truncated: bool, depthTruncated: bool): Byte {
    (if truncated then 0x01 else 0) + (if depthTruncated then 0x02 else 0)
  }

  function EncStackHeader(i: StackInfo, frameCount: nat, flags: Byte): (s: seq<Byte>)
    ensures |s| == STACKTRACE_HEADER_SIZE
  {
    U64Bytes(i.id) + LE(frameCount, 4) + U64Bytes(i.exceptionId) + U64Bytes(i.causeId) + U64Bytes(i.contextId)
      + [flags] + LE(|i.threadName|, 4)
  }

  function EncStack(s: Stack): seq<Byte> {
    EncStackHeader(s.info, |s.frames|, StackFlags(s.truncated, s.depthTruncated))
      + s.info.threadName + Cat(EncFrame, s.frames)
  }

  function EncEntry(e: Entry): (s: seq<Byte>)
    ensures |s| == MAP_ENTRY_SIZE
  {
    U64Bytes(e.pythonId) + U64Bytes(e.offset)
  }

  function EncSnapHeader(timestamp: U64, prev: U64, stackCount: nat, mapPos: nat, mapCount: nat,
                         flags: Byte): (s: seq<Byte>)
    ensures |s| == SNAPSHOT_HEADER_SIZE
  {
    U64Bytes(timestamp) + U64Bytes(prev) + LE(stackCount, 4) + LE(mapPos, 8) + LE(mapCount, 4) + [flags]
  }

  function MapPos(s: Snap): nat {
    s.pos + SNAPSHOT_HEADER_SIZE + |Cat(EncStack, s.stacks)|
  }

  function EncSnap(s: Snap): (r: seq<Byte>)
    ensures |r| >= SNAPSHOT_HEADER_SIZE
  {
    EncSnapHeader(s.timestamp, s.prev, |s.stacks|, MapPos(s), |s.entries|, if s.truncated then 0x01 else 0)
      + Cat(EncStack, s.stacks) + Cat(EncEntry, s.entries)
  }

  /** The fields of a stacktrace header, one by one. */
  ghost predicate StackHeaderFields(img: seq<Byte>, pos: int, i: StackInfo, frameCount: nat, flags: Byte) {
    && At(img, pos, U64Bytes(i.id))
    && At(img, pos + 8, LE(frameCount, 4))
    && At(img, pos + 12, U64Bytes(i.exceptionId))
    && At(img, pos + 20, U64Bytes(i.causeId))
    && At(img, pos + 28, U64Bytes(i.contextId))
    && At(img, pos + 36, [flags])
    && At(img, pos + 37, LE(|i.threadName|, 4))
  }

  lemma StackHeaderAt(img: seq<Byte>, pos: int, i: StackInfo, frameCount: nat, flags: Byte)
    ensures At(img, pos, EncStackHeader(i, frameCount, flags)) <==> StackHeaderFields(img, pos, i, frameCount, flags)
  {
    var a := U64Bytes(i.id);
    var b := a + LE(frameCount, 4);
    var c := b + U64Bytes(i.exceptionId);
    var d := c + U64Bytes(i.causeId);
    var e := d + U64Bytes(i.contextId);
    var f := e + [flags];
    AtSplit(img, pos, a, LE(frameCount, 4));
    AtSplit(img, pos, b, U64Bytes(i.exceptionId));
    AtSplit(img, pos, c, U64Bytes(i.causeId));
    AtSplit(img, pos, d, U64Bytes(i.contextId));
    AtSplit(img, pos, e, [flags]);
    AtSplit(img, pos, f, LE(|i.threadName|, 4));
  }

  /** The fields of a snapshot header, one by one. */
  ghost predicate SnapHeaderFields(img: seq<Byte>, pos: int, timestamp: U64, prev: U64,
                                   stackCount: nat, mapPos: nat, mapCount: nat, flags: Byte) {
    && At(img, pos, U64Bytes(timestamp))
    && At(img, pos + 8, U64Bytes(prev))
    && At(img, pos + 16, LE(stackCount, 4))
    && At(img, pos + 20, LE(mapPos, 8))
    && At(img, pos + 28, LE(mapCount, 4))
    && At(img, pos + 32, [flags])
  }

  lemma SnapHeaderAt(img: seq<Byte>, pos: int, timestamp: U64, prev: U64,
                     stackCount: nat, mapPos: nat, mapCount: nat, flags: Byte)
    ensures At(img, pos, EncSnapHeader(timestamp, prev, stackCount, mapPos, mapCount, flags))
       <==> SnapHeaderFields(img, pos, timestamp, prev, stackCount, mapPos, mapCount, flags)
  {
    var a := U64Bytes(timestamp);
    var b := a + U64Bytes(prev);
    var c := b + LE(stackCount, 4);
    var d := c + LE(mapPos, 8);
    var e := d + LE(mapCount, 4);
    AtSplit(img, pos, a, U64Bytes(prev));
    AtSplit(img, pos, b, LE(stackCount, 4));
    AtSplit(img, pos, c, LE(mapPos, 8));
    AtSplit(img, pos, d, LE(mapCount, 4));
    AtSplit(img, pos, e, [flags]);
  }

  // ------------------------------------------------------------------
  // Counts never outgrow their 32-bit fields: the image is too small for it
  // ------------------------------------------------------------------

  lemma IdsFit(ids: seq<U64>)
    requires |Cat(U64Bytes, ids)| <= MAX_FILE_SIZE
    ensures |Cat(U64Bytes, ids)| == 8 * |ids|
    ensures |ids| < 0x1_0000_0000
  {
    CatFixed(U64Bytes, ids, 8);
  }

  lemma PairsFit(pairs: seq<Pair>)
    requires |Cat(EncPair, pairs)| <= MAX_FILE_SIZE
    ensures |Cat(EncPair, pairs)| == 16 * |pairs|
    ensures |pairs| < 0x1_0000_0000
  {
    CatFixed(EncPair, pairs, 16);
  }

  lemma LocalsFit(locals: seq<Local>)
    requires |Cat(EncLocal, locals)| <= MAX_FILE_SIZE
    ensures |locals| < 0x1_0000_0000
  {
    CatAtLeast(EncLocal, locals, 12);
  }

  lemma FramesFit(frames: seq<Frame>)
    requires |Cat(EncFrame, frames)| <= MAX_FILE_SIZE
    ensures |frames| < 0x1_0000_0000
  {
    CatAtLeast(EncFrame, frames, 20);
  }

  lemma StacksFit(stacks: seq<Stack>)
    requires |Cat(EncStack, stacks)| <= MAX_FILE_SIZE
    ensures |stacks| < 0x1_0000_0000
  {
    CatAtLeast(EncStack, stacks, 41);
  }

  lemma EntriesFit(entries: seq<Entry>)
    requires |Cat(EncEntry, entries)| <= MAX_FILE_SIZE
    ensures |Cat(EncEntry, entries)| == 16 * |entries|
    ensures |entries| < 0x1_0000_0000
  {
    CatFixed(EncEntry, entries, 16);
  }
}
