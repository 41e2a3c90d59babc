# Tintype snapshots, verified

A Dafny model of the parts of Tintype in which a mistake would lose or distort a snapshot: the snapshot
file and its reader, the capture of stacks and objects, the threads that may capture, and the consumers
that follow exception chains, frame the debug protocol and schedule captures. Check it with
`dafny verify dfyconfig.toml`.

## What is modelled

- **The file.** `Bytes` and `Format` give the packed records. `Log` says what the writer means without
  bytes: committed snapshots, one being written, a heap of records, two object tables. `Layout` is the
  invariant that ties a byte image and the counters of the writer to that log, and `Keeps` shows that every
  kind of write keeps it. `Writing` is the class `SnapshotWriter` over one growable array, `Reading` the
  class `SnapshotReader` that may share it, `Space` how much room a run needs, and `Runs` the theorem about
  writer and reader over arbitrary clients.
  `Compaction`, `Environment` and `Finalizing` take the finished file apart and put it together without the gap.
  `Neighbours` has the cached links between snapshots as Python objects.
- **Objects.** `Identity` is the FNV hash, `IntText` the integers that arrive as text, `Objects` the graph
  of Python objects with distances. `Walk` is the breadth-first walk as a function of the log, `LaterWalks`
  what it does when earlier frames have filled the object map, `Budget` what a capture can take. `Capture` has
  the methods that carry the walk out through the live writer, `Stacks` frames and whole snapshots of one stack.
  `Rebuild` is the depth-first inverse, and `RoundTrip` composes the two.
- **Threads.** `CaptureProtocol` is a state machine: any number of capturing threads, the sampling thread,
  the timeout thread, the thread that enables and disables sampling, two mutexes, the GIL and two flags.
- **Consumers.** `ExceptionChain` has the five readers of a chain, `ExceptionCapture` its one writer,
  `ChainView` the flattened view, `Transport` the framing of the Debug Adapter Protocol (section "Base
  Protocol"), `AutoSnapshot` the scheduler of the editor.

Two things the environment decides are inputs: `Capture.CancelFlag` knows at which look the cancel flag is
first found raised, if ever, and the writer is created with the answers of the file system to its requests
for more space. The contracts hold for all of them, and say what happens when nobody cancels and nothing
is refused.

## What the code does, where it may surprise

- The heap position in the file header stays 0 until the first snapshot ends or the heap first moves. Heap
  records can be read through a borrowed reader once a snapshot is committed.
- The rest of a discarded or relocated record stays in the gap, though the documentation calls it zero-filled.
  Compaction is proved for any gap.
- `lookupObjectWithHash` says 0 for "miss", and 0 is also the offset of the first record. That object is
  written again.
- The identity hash mixes the first 32 and the last 8 children. What lies between can change unseen
  (`Identity.MiddleChildUnseen`, `Walk.StaleRecordReused`), so what a reused record says rests on the
  hypothesis `Walk.Faithful`. With 33 to 39 children some are mixed
  twice, and then a change of the top bit of their id alone cannot be seen either (`Identity.TopBitUnseen`).
- An object that an earlier frame of the same snapshot recorded at the depth limit stays a repr, even if a
  later frame is nearer to it (`LaterWalks.NearerFrameComesTooLate`, `LaterWalks.WalkFromAnywhere`).
- `truncated` may be set although nothing is missing: the frame limit is checked before the filters.
- If the frame limit cuts the stacktrace of one exception, the exceptions behind it in the chain are omitted.
- The note about a truncated chain is written whenever the cap is reached, also if the chain ends there.
- An exact tuple is rebuilt as a list to whatever is met from it while it is being built. Whether that shows
  depends on what is asked for: `l = []; t = (l,); l.append(t)` comes out right from `l` and wrong from `t`
  (`Rebuild.OrderMatters`).
- A key of a subclass of dict that is no str, int, float or bool comes back as its text, and so does the name of
  an attribute that is no str (`RoundTrip.KeysComeBack`).
- `RollbackWriteOffset` would take any offset; the capture layer passes only where the last frame starts.
- A stop of a session whose automatic captures are switched off does not cancel what is scheduled. The timer
  fires then, and starts nothing.
- An end of stream exactly between a header and its body is reported as a clean close.
- A path or content above the reader's limits makes the reader lose its place in the file table. The model
  requires entries within the limits.

## Model

| member | source | states |
|---|---|---|
| Runs.Replay | snapshot_lib/SnapshotWriter.cpp:1505-1880 | for every client of the writer that decides on each call by the outcomes and offsets so far and makes only calls the capture layer may make, with the file doubling, the heap sliding or space running out anywhere, a reader on the shared mapping sees after every call exactly the committed snapshots in order, and nothing in progress, discarded or lost; space runs out only after a refused extension or when the calls so far may have asked for more than 16 GiB |
| Runs.ReplayFresh | snapshot_lib/SnapshotWriter.cpp:307-378 | the same for a new file, from the empty log |
| Runs.ToldIsRun | snapshot_lib/SnapshotWriter.cpp:1505-1880 | the history of such a client is a run of the log, so what holds of all runs holds of it |
| Runs.ScriptIsCareful | snapshot_lib/SnapshotWriter.cpp:1505-1880 | any list of calls that may be made in turn while there is room, made until one runs out of space, is such a client |
| Runs.OrdinaryCapture | snapshot_lib/SnapshotCapture.cpp:806-832 | the calls of a capture that registers what it has just written and takes a frame back are such a list, whatever follows |
| Runs.LayoutBounded | snapshot_lib/SnapshotWriter.cpp:36-180 | in every state of a writer: records start, write offset, heap start, heap end, file size, at most 16 GiB, in this order; the write offset is where the log ends; at most ten extensions and thirteen relocations |
| Runs.Observe | snapshot_lib/SnapshotReader.cpp:696-718 | in any reachable state `getAllSnapshots` through a borrowed reader shows the committed log |
| Runs.ObserveAt | snapshot_lib/SnapshotReader.cpp:670-718 | `getSnapshotAtIndex(i)` is `getAllSnapshots()[i]`, and nothing for an index out of range |
| Runs.ObserveObject | snapshot_lib/SnapshotReader.cpp:917-1115 | once a snapshot is committed, the record at any good offset is read back as written, wherever the heap is now |
| Runs.Perform | snapshot_lib/SnapshotWriter.cpp:1505-1880 | one call: ends as the log says, runs out of space exactly if there was no room, and knows where the frames of the open stacktrace start |
| Runs.ViewShows | snapshot_lib/SnapshotReader.cpp:724-798 | the view of a snapshot record shows its timestamp, stacktraces by id, object map and flag |
| Space.WritesAtEnd | snapshot_lib/SnapshotWriter.cpp:1639-1653 | records are dense: whatever was discarded or rolled back, the write offset is a function of the committed and the open records |
| Space.StepCost | snapshot_lib/SnapshotWriter.cpp:1505-1880 | no call adds more to records and heap than its own bytes; an entry of the object map is paid for when it is registered |
| Space.NextFits | snapshot_lib/SnapshotWriter.cpp:48-102 | the file a call needs is no larger than what the calls of the run may have asked for |
| Log.StepKeepsTables | snapshot_lib/SnapshotWriter.cpp:1447-1493 | every call keeps every offset of both tables magic or the start of a complete record, and changes no existing record |
| Log.RunExtends | snapshot_lib/SnapshotWriter.cpp:1447-1493 | the same over any run; the committed log only grows |
| Log.InsideKeepsCommitted | snapshot_lib/SnapshotWriter.cpp:1785-1880 | only the end of a snapshot commits |
| Log.DiscardedNeverBegan | snapshot_lib/SnapshotWriter.cpp:1851-1872 | whatever happened since the begin, a discarded snapshot leaves the log as if it had never been begun |
| Log.RolledBackNeverWritten | snapshot_lib/SnapshotWriter.cpp:1874-1880 | a frame written and rolled back is as if never written, whatever objects were written meanwhile |
| Layout.ExtendKeeps | snapshot_lib/SnapshotWriter.cpp:104-160 | growing the file keeps the whole layout invariant |
| Layout.RelocateKeeps | snapshot_lib/SnapshotWriter.cpp:63-102 | moving the heap bytes to a later start keeps the invariant: record positions and relative offsets stay valid |
| Layout.LinksGoBack | snapshot_lib/SnapshotReader.cpp:670-718 | links point strictly backwards to the record before, and no record is at 0 |
| Layout.InvHolds | snapshot_lib/SnapshotReader.cpp:658-718 | the invariant gives a reader all it needs to find the committed snapshots |
| Layout.SnapsInOrder | snapshot_lib/SnapshotWriter.cpp:1505-1551 | committed records lie one behind the other and do not overlap |
| Keeps.HeapWriteKeeps | snapshot_lib/SnapshotWriter.cpp:182-269 | writing a record into the free space behind the heap keeps everything else |
| Keeps.RollbackKeeps | snapshot_lib/SnapshotWriter.cpp:1874-1880 | going back to where the last frame started is the state before that frame |
| Keeps.DiscardStackKeeps | snapshot_lib/SnapshotWriter.cpp:1639-1653 | dropping the open stacktrace keeps the rest of the open snapshot |
| Keeps.DiscardSnapshotKeeps | snapshot_lib/SnapshotWriter.cpp:1851-1872 | dropping the open snapshot keeps the committed ones |
| Keeps.EndStackKeeps | snapshot_lib/SnapshotWriter.cpp:1608-1637 | filling in count and flags turns the open stacktrace into a complete record |
| Keeps.EndSnapshotKeeps | snapshot_lib/SnapshotWriter.cpp:1785-1849 | map, header and totals turn the open snapshot into a committed record |
| Bytes.WordRoundTrip | snapshot_lib/SnapshotReader.cpp:1466-1476 | a 32-bit or 64-bit word is read back from its little-endian bytes |
| Format.StackHeaderAt | snapshot_lib/SnapshotWriter.h:95-104 | the packed stacktrace header is in the image exactly if each field is at its offset |
| Format.SnapHeaderAt | snapshot_lib/SnapshotWriter.h:69-77 | the packed snapshot header is in the image exactly if each field is at its offset |
| Format.FramesFit | snapshot_lib/SnapshotWriter.h:95-104 | a frame count never outgrows its 32-bit field: the file is too small for it |
| Reading.ReadObject | snapshot_lib/SnapshotReader.cpp:917-1115 | for all fourteen kinds, the record whose encoding is at the offset; nothing for a singleton |
| Reading.ReadFrameAt | snapshot_lib/SnapshotReader.cpp:800-863 | the frame whose encoding is there, and exactly the bytes it takes |
| Reading.ReadStackAt | snapshot_lib/SnapshotReader.cpp:724-798 | the stacktrace whose encoding is there, with links, flags and frames |
| Reading.ReadSnapshotAt | snapshot_lib/SnapshotReader.cpp:724-798 | the snapshot whose encoding is there |
| Reading.SnapshotReader.GetLatestSnapshot | snapshot_lib/SnapshotReader.cpp:658-668 | the last committed snapshot, or nothing |
| Reading.SnapshotReader.GetSnapshotAtIndex | snapshot_lib/SnapshotReader.cpp:670-694 | the snapshot of that index by walking back, or nothing |
| Reading.SnapshotReader.GetAllSnapshots | snapshot_lib/SnapshotReader.cpp:696-718 | all committed snapshots, oldest first; the walk ends |
| Reading.SnapshotReader.GetSnapshotAtPosition | snapshot_lib/SnapshotReader.cpp:720-722 | the snapshot of a record position |
| Reading.ByIdKeepsAll | snapshot_lib/SnapshotReader.cpp:753-783 | filing stacktraces with distinct ids by id loses none |
| Reading.GetHeader | snapshot_lib/SnapshotReader.cpp:582-584 | every header field is read from its offset |
| Writing.SnapshotWriter.Initialize | snapshot_lib/SnapshotWriter.cpp:307-378 | a fresh file: valid header, empty log, empty heap |
| Writing.SnapshotWriter.Cleanup | snapshot_lib/SnapshotWriter.cpp:928-967 | the mapping is given up and the borrowed reader loses it |
| Writing.SnapshotWriter.SetBorrowedReader | snapshot_lib/SnapshotWriter.cpp:1072-1075 | the reader looks at the mapping from now on |
| Writing.SnapshotWriter.ExtendFile | snapshot_lib/SnapshotWriter.cpp:104-160 | one extension: a size that is already there changes nothing, any other is granted or refused by the file system, and a refusal changes nothing; the reader is told of the new mapping |
| Writing.SnapshotWriter.ExtendToFit | snapshot_lib/SnapshotWriter.cpp:162-180 | the file grows by doubling until the request fits; it fails exactly if the request is above the limit or the one extension is refused, and then changes nothing |
| Writing.SnapshotWriter.EnsureHeapSpace | snapshot_lib/SnapshotWriter.cpp:48-61 | room for a heap record exactly if it fits or the file can be grown to it, with the layout kept |
| Writing.SnapshotWriter.EnsureRecordSpace | snapshot_lib/SnapshotWriter.cpp:63-102 | room for records exactly if they fit, or the heap can slide out of the way in a file that can be had, with the layout kept; the heap moves to the next doubling |
| Writing.SnapshotWriter.Relocate | snapshot_lib/SnapshotWriter.cpp:63-102 | the heap moves intact to its new start |
| Writing.GrowthBounded | snapshot_lib/SnapshotWriter.h:175-198 | any run does at most ten extensions and thirteen relocations |
| Writing.SnapshotWriter.BeginSnapshot | snapshot_lib/SnapshotWriter.cpp:1505-1551 | as the log says, or refused; out of space exactly if there was no room, and then without effect |
| Writing.SnapshotWriter.BeginStacktrace | snapshot_lib/SnapshotWriter.cpp:1553-1606 | as the log says, or refused; out of space exactly if there was no room; absent links become self-references |
| Writing.SnapshotWriter.WriteFrameRecord | snapshot_lib/SnapshotWriter.cpp:1655-1783 | the frame is appended to the open stacktrace, out of space exactly if there was no room; the old write offset is where the frame starts |
| Writing.SnapshotWriter.EndStacktrace | snapshot_lib/SnapshotWriter.cpp:1608-1637 | the open stacktrace becomes part of the snapshot, with count and flags |
| Writing.SnapshotWriter.DiscardCurrentStacktrace | snapshot_lib/SnapshotWriter.cpp:1639-1653 | the open stacktrace is gone |
| Writing.SnapshotWriter.EndSnapshot | snapshot_lib/SnapshotWriter.cpp:1785-1849 | the open snapshot with the object map is committed; out of space exactly if there was no room, and then nothing changes |
| Writing.SnapshotWriter.DiscardCurrentSnapshot | snapshot_lib/SnapshotWriter.cpp:1851-1872 | the open snapshot is gone |
| Writing.SnapshotWriter.RollbackWriteOffset | snapshot_lib/SnapshotWriter.cpp:1874-1880 | the last frame of the open stacktrace is gone |
| Writing.SnapshotWriter.WriteInt64 | snapshot_lib/SnapshotWriter.cpp:1197-1215 | the record is in the heap at the offset returned and nothing else changes; out of space exactly if there was no room |
| Writing.SnapshotWriter.WriteFloat | snapshot_lib/SnapshotWriter.cpp:1217-1235 | likewise for floats |
| Writing.SnapshotWriter.WriteString | snapshot_lib/SnapshotWriter.cpp:1107-1126 | likewise for strings |
| Writing.SnapshotWriter.WriteBytes | snapshot_lib/SnapshotWriter.cpp:1128-1147 | likewise for bytes |
| Writing.SnapshotWriter.WriteText | snapshot_lib/SnapshotWriter.cpp:1107-1147 | the shared body: strings, bytes and big integers |
| Writing.SnapshotWriter.WriteSequence | snapshot_lib/SnapshotWriter.cpp:239-249 | likewise for lists, tuples and sets |
| Writing.SnapshotWriter.WriteDict | snapshot_lib/SnapshotWriter.cpp:1285-1305 | likewise for dicts |
| Writing.SnapshotWriter.WriteSerializedObject | snapshot_lib/SnapshotWriter.cpp:1307-1333 | likewise for other objects |
| Writing.SnapshotWriter.WriteSerializedSequence | snapshot_lib/SnapshotWriter.cpp:251-269 | likewise for subclasses of list, tuple and set |
| Writing.SnapshotWriter.WriteSerializedDict | snapshot_lib/SnapshotWriter.cpp:1398-1426 | likewise for subclasses of dict |
| Writing.SnapshotWriter.TryLookupObject | snapshot_lib/SnapshotWriter.cpp:1447-1456 | what it finds is in the object map and magic or the start of a record |
| Writing.SnapshotWriter.LookupObjectWithHash | snapshot_lib/SnapshotWriter.cpp:1463-1476 | a cached offset under the same hash; 0 also for the object at offset 0, which is then written again |
| Writing.SnapshotWriter.RegisterObject | snapshot_lib/SnapshotWriter.cpp:1458-1461 | one more entry in the object map |
| Writing.SnapshotWriter.RegisterObjectWithBothCaches | snapshot_lib/SnapshotWriter.cpp:1486-1493 | one more entry in both tables |
| Compaction.CompactionPreserves | snapshot_lib/SnapshotWriter.cpp:733-801 | cutting the gap and lowering the positions behind it keeps every snapshot, record, file, section and statistic, whatever the gap held |
| Compaction.HeaderAt | snapshot_lib/SnapshotWriter.h:44-62 | the packed file header is in the image exactly if each field is at its offset |
| Compaction.CoreHolds | snapshot_lib/SnapshotReader.cpp:658-718 | a complete file is one a reader finds the snapshots in |
| Compaction.GetMetadata | snapshot_lib/SnapshotReader.cpp:586-598 | the metadata that was stored, or nothing |
| Compaction.GetManifest | snapshot_lib/SnapshotReader.cpp:600-612 | the manifest that was stored, or nothing |
| Compaction.GetEnvironmentBlock | snapshot_lib/SnapshotReader.cpp:614-630 | the environment bytes that were stored |
| Compaction.GetAllSourceFiles | snapshot_lib/SnapshotReader.cpp:865-915 | the file table that was stored, in order |
| Compaction.GetStats | snapshot_lib/SnapshotReader.cpp:1134-1183 | the statistics that were stored, later ones winning |
| Environment.ParseEnvironment | snapshot_lib/SnapshotReader.cpp:614-656 | the loop gives the variables of the block, later ones winning, up to an entry that is cut off |
| Environment.EnvironmentReadBack | snapshot_lib/SnapshotWriter.cpp:586-597 | an environment is read back as it was written |
| Finalizing.CompleteFile | snapshot_lib/SnapshotWriter.cpp:598-713 | with the sections behind the heap and the final header, the working file is complete, with all sections if the file can hold them |
| Finalizing.WriteOutput | snapshot_lib/SnapshotWriter.cpp:733-801 | the output is the compacted file and nothing else |
| Finalizing.Finalize | snapshot_lib/SnapshotWriter.cpp:969-1060 | the writer lets go of its file; the output, if any, is complete, with all sections if the file can hold them |
| Finalizing.FinalizeAndReopen | snapshot_lib/SnapshotWriter.cpp:969-1060 | finalizing and opening the output gives back every committed snapshot, every record and every section that fitted: all of them if the file can hold them |
| Neighbours.LinkAdjacentSnapshots | _snapshot.cpp:98-105 | neighbours are cached, and no object is ever linked to anything but a true neighbour |
| Neighbours.GetPrevSnapshot | _snapshot.cpp:841-858 | the snapshot before, or None for the first; all cached links stay true |
| Neighbours.GetNextSnapshot | _snapshot.cpp:861-911 | the snapshot after as the log is now, or None for the latest, which is not cached; all cached links stay true |
| Neighbours.StillLinked | _snapshot.cpp:98-105 | appending snapshots between calls spoils no cached link |
| Neighbours.Positions | snapshot_lib/SnapshotReader.cpp:670-718 | a link is 0 only for the first snapshot and equals the position of no snapshot but the one before |
| Identity.ComputeIdentityHash | snapshot_lib/SnapshotCapture.cpp:118-155 | the loops compute the FNV-1a fold over type, size and the mixed children |
| Identity.OneWordMatters | snapshot_lib/SnapshotCapture.cpp:118-155 | changing one mixed word changes the hash: xor and multiplication by the prime lose nothing |
| Identity.TypeChangeDetected | snapshot_lib/SnapshotCapture.cpp:118-155 | another type, another hash |
| Identity.SizeChangeDetected | snapshot_lib/SnapshotCapture.cpp:118-155 | another size, another hash |
| Identity.ChildChangeDetected | snapshot_lib/SnapshotCapture.cpp:134-152 | no change of a child goes unseen if and only if it is mixed once: one that is not mixed can change freely, and one that is mixed twice in its top bit |
| Identity.TopBitUnseen | snapshot_lib/SnapshotCapture.cpp:134-152 | flipping the top bit of a child that is mixed twice leaves the hash as it is, wherever its two places are |
| Identity.OneWordFlips | snapshot_lib/SnapshotCapture.cpp:118-155 | flipping the top bit of any one mixed word flips the top bit of the hash and nothing else |
| Identity.MiddleChildUnseen | snapshot_lib/SnapshotCapture.cpp:134-152 | a child between the first 32 and the last 8 can change freely |
| Identity.TextHashInjective | snapshot_lib/SnapshotCapture.cpp:1204-1227 | the hash of a string or bytes object tells types and Python hashes apart |
| IntText.StollDecimal | snapshot_lib/SnapshotWriter.cpp:1149-1195 | reading the decimal text of an integer gives the integer if and only if it fits in 64 bits |
| IntText.DecimalRecord | snapshot_lib/SnapshotWriter.cpp:1149-1195 | the decimal text of an integer is stored as that 64-bit integer if and only if it fits, and kept as text otherwise |
| Objects.RecordKeepsChildren | snapshot_lib/SnapshotCapture.cpp:1269-1766 | the full record of an object refers to exactly what the object refers to, in queue order; a record at the limit to nothing |
| Objects.ItemChangeNoticed | snapshot_lib/SnapshotCapture.cpp:118-155 | a container with another object in one place, be it an element, a key, a value or an attribute, has another hash if that place is mixed once, the same hash if it is not mixed, and the same if it is mixed twice and the ids differ in the top bit alone |
| Objects.HasDistance | snapshot_lib/SnapshotCapture.cpp:703-720 | whatever can be reached has a distance from the roots |
| Walk.WalkFromNothing | snapshot_lib/SnapshotCapture.cpp:703-720 | from an empty object map the queue walk records exactly the readable objects within the limit: nearer than it in full, at it as their repr, and flags the limit exactly if some non-leaf is at it |
| Walk.NearerDone | snapshot_lib/SnapshotCapture.cpp:703-720 | whatever is nearer than the front of the queue has been processed |
| Walk.NextKeepsWalk | snapshot_lib/SnapshotCapture.cpp:1108-1293 | one object processed keeps the breadth-first invariant |
| Walk.WalkTerminates | snapshot_lib/SnapshotCapture.cpp:703-720 | every walk ends, cyclic graph or not |
| Walk.EndReached | snapshot_lib/SnapshotCapture.cpp:703-720 | however many steps it takes, a walk comes to the one end it can come to |
| Walk.StepsCounted | snapshot_lib/SnapshotCapture.cpp:703-720 | a walk with something left to process has not taken all its steps, and one that is over has taken exactly so many |
| Walk.EndPending | snapshot_lib/SnapshotCapture.cpp:703-720 | what is being written besides does not matter to where a walk ends |
| Walk.VisitKeepsOwned | snapshot_lib/SnapshotCapture.cpp:1295-1325 | no record ever serves two objects, in the object map or the cache |
| Walk.VisitDescribes | snapshot_lib/SnapshotCapture.cpp:1108-1766 | the new entry of an object is its singleton, its full record or its repr |
| Walk.VisitKeepsFaithful | snapshot_lib/SnapshotCapture.cpp:1269-1766 | a cache that describes the objects goes on doing so |
| Walk.NextKeepsClosed | snapshot_lib/SnapshotCapture.cpp:1295-1325 | children are queued even on a cache hit, so references are recorded, unreadable or queued |
| Walk.IterateKeeps | snapshot_lib/SnapshotCapture.cpp:703-720 | all of this after any number of objects |
| Walk.QueuedIsProcessed | snapshot_lib/SnapshotCapture.cpp:703-720 | nothing queued is forgotten |
| Walk.StaleRecordReused | snapshot_lib/SnapshotCapture.cpp:134-152 | the blind spots of the hash: a long list with another element in a place that is not mixed, or is mixed twice and differs in the top bit, keeps its old record |
| LaterWalks.WalkFromAnywhere | snapshot_lib/SnapshotCapture.cpp:703-720 | from any object map, filled or not: what was in it stays as it was, and exactly the other readable objects within the limit are added, by their distance over objects that were not in the map |
| LaterWalks.IterateRest | snapshot_lib/SnapshotCapture.cpp:1108-1150 | a walk over a filled object map is the walk from an empty one over the graph in which the mapped objects are ends, however many steps it takes |
| LaterWalks.EntriesStay | snapshot_lib/SnapshotCapture.cpp:1108-1150 | no walk changes an entry of the object map or a record |
| LaterWalks.NearerFrameComesTooLate | snapshot_lib/SnapshotCapture.cpp:806-832 | two frames: the first records a list at the depth limit as its repr, the second has that list for a local and leaves it so |
| Budget.VisitPaid | snapshot_lib/SnapshotCapture.cpp:1108-1766 | visiting an object takes nothing that was not counted before: each is written at most once and mapped at most once |
| Budget.WalkPaid | snapshot_lib/SnapshotCapture.cpp:703-720 | nor does a walk, however far it comes |
| Budget.RecordsFit | snapshot_lib/SnapshotWriter.cpp:63-102 | a call for records asks for no more file than the bytes left to write, whatever the heap has moved |
| Budget.ObjectFits | snapshot_lib/SnapshotWriter.cpp:48-61 | a call for the record of an object not mapped yet asks for no more file than the bytes left to write |
| Capture.WriteInt | snapshot_lib/SnapshotWriter.cpp:1149-1195 | an integer given as text becomes the record that its text stands for |
| Capture.SaveUnderHash | snapshot_lib/SnapshotCapture.cpp:1308-1325 | an unchanged object reuses its record; any other is written and entered in both tables |
| Capture.ProcessInt | snapshot_lib/SnapshotCapture.cpp:1155-1182 | integers: 64-bit, as text, or skipped if there is no text |
| Capture.ProcessText | snapshot_lib/SnapshotCapture.cpp:1193-1267 | strings and bytes, under Python's hash if there is one |
| Capture.ProcessContainer | snapshot_lib/SnapshotCapture.cpp:1295-1766 | containers and other objects: children queued, then reused or written |
| Capture.CancelFlag.IsRequested | snapshot_lib/SnapshotCapture.cpp:525-535 | a look finds the flag raised exactly if it has been raised by then; it stays raised |
| Capture.ProcessObject | snapshot_lib/SnapshotCapture.cpp:1108-1766 | one object through the live writer: the log, the queue and the limit flag as the walk says; or nothing, because the record of this object had no room |
| Capture.ProcessFrameObjects | snapshot_lib/SnapshotCapture.cpp:703-720 | the walk to the end of the queue exactly if the cancel flag is not raised within as many looks as the walk has objects; the log is that of the steps taken; space fails only for an object that the roots lead to, and only after a refused extension or if the objects of the graph do not fit below the limit |
| Stacks.ShouldFilterFrame | snapshot_lib/SnapshotCapture.cpp:473-481 | a frame is filtered exactly if its path contains a filter |
| Stacks.CaptureFrame | snapshot_lib/SnapshotCapture.cpp:806-832 | a frame with its objects is kept, with its locals known and heap and tables as its walk leaves them, exactly if the cancel flag is not raised within the looks of that walk; else it is taken back as if never written, with heap and tables as after some of the steps |
| Stacks.WriteFrames | snapshot_lib/SnapshotCapture.cpp:1795-1885 | the frames kept are the innermost unfiltered ones, as many as the limit admits unless the cancel flag was seen; the truncated flag is set exactly if that was so or the limit was reached with a frame to come, the depth flag exactly if a walk came upon the limit; the flag is seen exactly if it is raised within the looks of the run, one for each frame and each object |
| Stacks.WriteFramesFromFrame | snapshot_lib/SnapshotCapture.cpp:1768-1886 | the same for the current stack after skipping |
| Stacks.WriteTracebackFrames | snapshot_lib/SnapshotCapture.cpp:722-833 | the same for a traceback, innermost entry first |
| Stacks.TakeSnapshot | snapshot_lib/SnapshotCapture.cpp:835-918 | one committed snapshot with that stacktrace, every local in the object map and, unless a walk was cut, no dangling reference; or nothing, exactly if there was nothing to write, a limit of zero, or a cancel; a flag raised after its last look changes nothing; it runs out of space only if an extension is refused during the capture, or if its records and those of the graph do not fit below 16 GiB |
| Stacks.LooksLeft | snapshot_lib/SnapshotCapture.cpp:1795-1885 | a run that has come to a frame takes exactly one more look if the limit stops it there, and at least those of that frame if not |
| Stacks.UncancelledIsComplete | snapshot_lib/SnapshotCapture.cpp:835-918 | if nobody cancels and there is no limit on frames, all frames are there, nothing dangles, and no flag says otherwise |
| Rebuild.ObjectCache.GetPythonObject | snapshot_lib/SnapshotReader.cpp:1185-1435 | ends on every cyclic graph; what was built stays, what is added is reachable, and the value is the node of the id |
| Rebuild.ObjectCache.Build | snapshot_lib/SnapshotReader.cpp:1283-1435 | the object of a record, entered in the cache before its references are followed |
| Rebuild.ObjectCache.Append | snapshot_lib/SnapshotReader.cpp:1333-1429 | a reference goes into its place as it is, or as its text if the place is the key of a subclass of dict and it is no str, int, float or bool, or the name of an attribute and it is no str; nothing that is built later changes that |
| Rebuild.RebuildObject | snapshot_lib/SnapshotReader.cpp:1185-1435 | one node per reachable record, met in depth-first order; every reference is the object it stands for, except that an exact tuple is a list to what was met from it while it was open; so it is the written graph if and only if no exact tuple is met before the rest of one of its cycles |
| Rebuild.RebuildEach | snapshot_lib/SnapshotReader.cpp:1212-1216 | many objects with one cache: shared where they were, and all as written if and only if no exact tuple is met before the rest of one of its cycles |
| Rebuild.CompleteEverywhere | snapshot_lib/SnapshotReader.cpp:1294-1307 | whatever has been asked of one cache, every node is as written if and only if no exact tuple was met before the rest of one of its cycles |
| Rebuild.CompleteUnless | snapshot_lib/SnapshotReader.cpp:1294-1307 | a node is as written if and only if it refers to no tuple whose stand-in it sees |
| Rebuild.AcyclicIsSafe | snapshot_lib/SnapshotReader.cpp:1294-1307 | if no reachable exact tuple is on a cycle, none is met too early |
| Rebuild.CyclicIsUnsafe | snapshot_lib/SnapshotReader.cpp:1294-1307 | an exact tuple on a cycle is met too early if it is what is asked for |
| Rebuild.SafeFromAnywhere | snapshot_lib/SnapshotReader.cpp:1294-1307 | whichever reachable object is asked for comes out right, if and only if no exact tuple is on a cycle |
| Rebuild.OrderMatters | snapshot_lib/SnapshotReader.cpp:1294-1307 | a list holding a tuple holding the list comes out right if the list is asked for, and wrong if the tuple is |
| RoundTrip.CaptureThenRebuild | snapshot_lib/SnapshotReader.cpp:1185-1435 | capture then rebuild: distinct objects come back distinct, those nearer than the limit with every child in place, those at it as their repr |
| RoundTrip.ChildrenComeBack | snapshot_lib/SnapshotReader.cpp:1212-1216 | every child of an object in full comes back as itself |
| RoundTrip.KeysComeBack | snapshot_lib/SnapshotReader.cpp:1333-1429 | which references of an object come back as their text: exactly the keys of a subclass of dict whose object was captured as no str, int, float or bool, and the names whose object was captured as no str |
| RoundTrip.RecordsAcyclic | snapshot_lib/SnapshotReader.cpp:1294-1307 | records form a cycle through an exact tuple only if objects do |
| RoundTrip.ObserveGraph | snapshot_lib/SnapshotReader.cpp:1185-1435 | the same as `RebuildObject`, through a reader on the live mapping |
| RoundTrip.ObserveExceptions | snapshot_lib/SnapshotReader.cpp:776-783 | the exception objects of the stacktraces of a committed snapshot, rebuilt in their order with one cache |
| RoundTrip.WholeRestored | snapshot_lib/SnapshotReader.cpp:1185-1435 | with no dangling reference in the map, every object that was rebuilt shows what the walk saw, with all its children or as its repr, and no two objects became one |
| RoundTrip.RestoredMirrors | snapshot_lib/SnapshotReader.cpp:1185-1435 | conversely, if every rebuilt object shows what the walk saw, the built graph is the written one |
| RoundTrip.CaptureAndRebuild | snapshot_lib/SnapshotCapture.cpp:835-918 | from the live stack to Python objects again: unless the cancel flag cut a walk short, which the snapshot says, an object of the new snapshot comes back with everything it leads to, keys and names as in `KeysComeBack`, if and only if no exact tuple is met before the rest of one of its cycles; a failure leaves the committed log alone and has the reasons of `TakeSnapshot` |
| CaptureProtocol.MoveKeeps | snapshot_lib/SnapshotCapture.cpp:537-571 | every atomic action of every thread keeps the protocol invariant |
| CaptureProtocol.MutualExclusion | snapshot_lib/SnapshotCapture.cpp:835-918 | in every interleaving at most one actor is between claim and release, and nobody else has a snapshot open |
| CaptureProtocol.CleanStart | snapshot_lib/SnapshotCapture.cpp:2031-2095 | while the flag is down there is no timer, no cancel left by a timer, and no open snapshot |
| CaptureProtocol.TimerCutsOnlyItsOwn | snapshot_lib/SnapshotCapture.cpp:537-571 | a timer fires only while the timed capture it was started for is under way |
| CaptureProtocol.NoDeadlock | snapshot_lib/SnapshotCapture.cpp:2234-2306 | while anything is under way some thread can carry on, and not because a time-out saves it |
| CaptureProtocol.ProgressDescends | snapshot_lib/SnapshotCapture.cpp:2234-2306 | carrying on always brings the world nearer to rest |
| CaptureProtocol.ComesToRest | snapshot_lib/SnapshotCapture.cpp:2189-2306 | from every reachable state there is a way to rest |
| CaptureProtocol.EveryScheduleRests | snapshot_lib/SnapshotCapture.cpp:2189-2306 | whichever way the threads are scheduled, if somebody who can carry on always does, everything under way completes in finitely many moves: no stop signal is lost |
| CaptureProtocol.StuckIsRest | snapshot_lib/SnapshotCapture.cpp:2189-2306 | a run that cannot carry on any further has completed everything |
| CaptureProtocol.DisableReturns | snapshot_lib/SnapshotCapture.cpp:2215-2232 | disableSampling returns with the sampling thread joined |
| CaptureProtocol.NoSampleAfterDisable | _snapshot.cpp:604-616 | after that, until sampling is enabled again, the sampling thread takes no step |
| ExceptionChain.StacktraceObject.GetCause | _snapshot.cpp:741-762 | the cause kept in the snapshot, or None for a self-reference or an omitted one, cached or not |
| ExceptionChain.StacktraceObject.GetContext | _snapshot.cpp:764-785 | likewise for the context |
| ExceptionChain.StacktraceDict.constructor | _snapshot.cpp:700-785 | one object for every stacktrace, nothing cached |
| ExceptionChain.CollectChain | dap/session.py:609-634 | the chain view walks the one chain, labelled by how each stacktrace was reached |
| ExceptionChain.PickInnermost | dap/session.py:1439-1475 | the innermost exception is the end of the same chain |
| ExceptionChain.BuildDetails | dap/exceptions.py:84-130 | the nested details visit the same chain |
| ExceptionChain.FormatChain | dap/exceptions.py:168-222 | the rendered text visits the same chain, with a note exactly if it loops or reaches the cap |
| ExceptionChain.ReconstructException | _exception.py:40-79 | the rebuilt exceptions are the same chain, wired as cause or context |
| ExceptionChain.ChainReadBack | snapshot_lib/SnapshotCapture.cpp:948-1057 | whatever cycles and suppressed contexts there were, a reader from stacktrace 1 visits 1, 2, 3 and so on, up to the cap |
| ExceptionCapture.CollectExceptions | snapshot_lib/SnapshotCapture.cpp:948-990 | the chain of causes and unsuppressed contexts, without repetition, up to its end or its loop |
| ExceptionCapture.InfoOf | snapshot_lib/SnapshotCapture.cpp:1033-1057 | ids along the chain, with a self-reference for no link |
| ExceptionCapture.CaptureException | snapshot_lib/SnapshotCapture.cpp:1005-1090 | one exception: its object known, its stacktrace with links, the frames the limit admits and exact flags; left out, cut or ending the chain only for a reason that is given; the cancel flag is seen exactly if it is raised within the looks for it |
| ExceptionCapture.TakeSnapshotFromException | snapshot_lib/SnapshotCapture.cpp:920-1106 | exactly the exceptions with frames to show, up to the first with too many, unless the cancel flag was seen; marked truncated exactly if it was or some exception has no frame or too many; if not, read back in the order of capture; what is written can be followed; a flag raised after its last look changes nothing; it runs out of space only if an extension is refused meanwhile, or if its records and those of the graph do not fit below 16 GiB |
| ExceptionCapture.UncancelledChainIsComplete | snapshot_lib/SnapshotCapture.cpp:920-1106 | if nobody cancels, there is no limit on frames and every exception has a frame to show, the whole chain is there with all frames, and says so |
| ExceptionCapture.CaptureAndCollect | snapshot_lib/SnapshotCapture.cpp:920-1106 | from live exceptions to the chain view: the trail from stacktrace 1 with how each was reached, which is 1, 2, 3 and so on in the order of the chain, up to the cap, unless the snapshot says it is truncated; a failure leaves the committed log alone and has the reasons of `TakeSnapshotFromException` |
| ChainView.PruneOrphanSeparators | dap/session.py:1511-1534 | the two loops compute the pruned rows |
| ChainView.PruneCleans | dap/session.py:1511-1534 | no orphan separator is left, clean rows are unchanged, and pruning twice is pruning once |
| ChainView.ViewShows | dap/session.py:636-674 | after pruning the view is the non-empty groups, innermost first, one separator between neighbours and none at the ends |
| ChainView.PagesConcat | dap/session.py:676-682 | pages of any size concatenate to the full list |
| ChainView.FrameRegistry.RegisterFrame | dap/session.py:1129-1142 | one stable id per frame |
| ChainView.FrameRegistry.RegisterSeparator | dap/session.py:702-707 | a new id for a separator, never that of a frame |
| ChainView.FrameRegistry.IdsUnique | dap/session.py:1129-1142 | one id never stands for two rows, and one frame never has two ids |
| ChainView.BuildExceptionChainStackTrace | dap/session.py:579-700 | a page of the chain view, each row under an id that stands for it; ids given for earlier pages keep their rows |
| Transport.BufferedSocketIO.Read | dap/transport.py:163-181 | the next bytes in order, at least one unless the stream is at its end |
| Transport.ReadExact | dap/transport.py:67-81 | exactly the bytes asked for, however they arrive, or closed, or an error |
| Transport.ReadHeader | dap/transport.py:84-97 | everything up to the first separator, within the limit |
| Transport.ParseHeader | dap/transport.py:109-121 | the last Content-Length counts; one that is no number spoils the header |
| Transport.ReadMessage | dap/transport.py:100-127 | the next message of the stream, and the stream behind it |
| Transport.FrameReadBack | dap/transport.py:54-58 | a frame is read back as its body, whatever follows |
| Transport.Serve | dap/transport.py:100-127 | repeated reading gives the messages of the stream and how it failed |
| Transport.StreamReadBack | dap/transport.py:54-127 | for all bodies and all ways to split the bytes: exactly the bodies, then closed |
| Transport.CutStream | dap/transport.py:67-97 | a stream cut inside a frame counts as closed if and only if the cut is before the frame or exactly between header and body |
| AutoSnapshot.SnapshotProvider.HandleParentStopped | vscode/core/src/snapshot/snapshot-provider.tsx:1694-1717 | what an earlier stop scheduled is cancelled; the promise waits exactly if a capture is scheduled |
| AutoSnapshot.SnapshotProvider.CancelPendingAutoSnapshot | vscode/core/src/snapshot/snapshot-provider.tsx:1725-1733 | the scheduled capture is gone and its promise resolved |
| AutoSnapshot.SnapshotProvider.Dispose | vscode/core/src/snapshot/snapshot-provider.tsx:1736-1745 | every scheduled capture is gone and every such promise resolved once |
| AutoSnapshot.SnapshotProvider.OnTimer | vscode/core/src/snapshot/snapshot-provider.tsx:1709-1713 | a capture starts unless one runs or the feature is off |
| AutoSnapshot.SnapshotProvider.OnCaptured | vscode/core/src/snapshot/snapshot-provider.tsx:1761-1776 | the capture is over; a failure switches the feature off |
| AutoSnapshot.SnapshotProvider.HandleTerminateSession | vscode/core/src/snapshot/snapshot-provider.tsx:1114-1122 | nothing of the session stays scheduled |
| AutoSnapshot.OneOfEach | vscode/core/src/snapshot/snapshot-provider.tsx:1694-1792 | over every trace no promise is resolved twice, and a live session has at most one scheduled and one running capture |
| AutoSnapshot.CancelledInTime | vscode/core/src/snapshot/snapshot-provider.tsx:1694-1745 | after a resume, a newer stop of a session that is not switched off, a termination or a dispose the timer never fires and the promise is resolved |
| AutoSnapshot.NewerStopPrevents | vscode/core/src/snapshot/snapshot-provider.tsx:1694-1713 | what an older stop scheduled captures nothing after a newer one, even if the session is switched off and its timer is left to fire |
| AutoSnapshot.UnsupportedSchedulesNothing | vscode/core/src/snapshot/snapshot-provider.tsx:1694-1697 | a session without live captures never has one scheduled |
| AutoSnapshot.FailureLatches | vscode/core/src/snapshot/snapshot-provider.tsx:1747-1776 | after a failure no capture of the session starts until it is over |
| AutoSnapshot.FailureIsFinal | vscode/core/src/snapshot/snapshot-provider.tsx:1747-1776 | a capture that fails is the last of its session |
| AutoSnapshot.StoppedAfterTheEnd | vscode/core/src/snapshot/snapshot-provider.tsx:1114-1122 | events for a session that is over could start a second capture beside the one in flight |

## Left out

- Memory mapping, `ftruncate`, `msync`, temporary files, zstd and the extraction of sources: the image is a byte array, an extension succeeds or changes nothing, and compression is the identity.
- `remapIfGrown` and readers in other processes.
- Statistics, timers of the statistics collector, build scripts, demos, the curses viewer, telemetry and editor interface.
- The list of referenced files kept by `addReferencedFile`: the files to store are an argument of `Finalize`.
- CPython details: reference counts, the text of a `repr`, the discovery of attributes, frame objects. Objects are an immutable graph of kinds and ordered children, frames a list.
- Counts and lengths of 2^32 and more, which the writer casts to 32 bits: `Str`, `Ids` and `Pairs` stay below.
- Depths of 2^32 and more in the object queue, which would wrap around.
- Python sets and dicts merge equal elements and may refuse unhashable keys: rebuilt objects keep their lists of references. Keys that get the same text would merge too.
- The text that a key or a name is replaced by: `slots` says whose text it is.
- The recursion limit of the interpreter, which a very deep object can meet in `getPythonObject`.
- Exceptions thrown by the writer in the middle of a capture, and the path of an uninitialized module: `CaptureProtocol` assumes neither. In `Stacks` and `ExceptionCapture` running out of space ends the call with the log's committed part unchanged, and `CancelFlag` stays raised because nobody lowers it before the capture is over.
- `takeSnapshot` given something that is no traceback.
- `snapshotAllThreads` as a capture of several stacks: `CaptureProtocol` has its claims, timer and flags, `Stacks` the frames of each stack.
- `finalize` racing a capture, concurrent calls of `disableSampling`, and free-threaded Python.
- `_pick_exception_chain_root`: the readers start at the stacktrace they are given.
- Whether the exception object of a stacktrace can be rebuilt: `ReconstructException` is told.
- Looking a frame up by its id when filtered frames are hidden: the ids then count another list.
- JSON: bodies are opaque bytes, and lengths are machine words. The interpreter's limit on digits in `int()` is not modelled.
- The expression evaluator, variable trees, source lookup and the dispatcher of the debug adapter.
- RollbackWriteOffset: takes only the start of the last frame, because any other offset would leave a damaged record.
- ReadStackAt: gives the id of the exception object; `ObserveExceptions` rebuilds the objects, in a second pass.
- ReadSnapshotAt: likewise.
- GetNextSnapshot: leaves out the branch for a snapshot that is not in the chain, which no reader can hand out.
