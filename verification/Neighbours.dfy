/**
 * Snapshots as Python objects: each may cache the objects before and after it. A snapshot may be
 * represented by many objects, and snapshots may be appended between any two calls.
 */
module Neighbours {
  import opened Bytes
  import opened Format
  import opened Layout
  import opened Reading

  class PySnapshot {
    const view: Snapshot
    ghost const index: nat
    var hasPrev: bool       // `_prev_snapshot` is set, possibly to None
    var prev: PySnapshot?
    var next: PySnapshot?   // `_next_snapshot`; None is never cached

    constructor (v: Snapshot, ghost i: nat)
      ensures view == v && index == i && !hasPrev && prev == null && next == null
    {
      view, index, hasPrev, prev, next := v, i, false, null, null;
    }
  }

  /** The object shows its snapshot, and its cached links go to its true neighbours. */
  ghost predicate Linked(o: PySnapshot, snaps: seq<Snap>, all: set<PySnapshot>)
    reads o
  {
    && o.index < |snaps| && o.view == View(snaps[o.index])
    && (o.hasPrev && o.prev == null ==> o.index == 0)
    && (o.hasPrev && o.prev != null ==> o.prev in all && o.prev.index == o.index - 1)
    && (o.next != null ==> o.next in all && o.next.index == o.index + 1)
  }

  ghost predicate AllLinked(snaps: seq<Snap>, all: set<PySnapshot>)
    reads all
  {
    forall o :: o in all ==> Linked(o, snaps, all)
  }

  /** Appending snapshots spoils no link. */
  lemma StillLinked(snaps: seq<Snap>, more: seq<Snap>, all: set<PySnapshot>)
    requires AllLinked(snaps, all) && snaps <= more
    ensures AllLinked(more, all)
  {
  }

  /** Cache two snapshots as neighbours, unless they already know one. */
  method LinkAdjacentSnapshots(before: PySnapshot, after: PySnapshot, ghost snaps: seq<Snap>,
                               ghost all: set<PySnapshot>)
    requires AllLinked(snaps, all) && before in all && after in all && after.index == before.index + 1
    modifies before, after
    ensures AllLinked(snaps, all)
    ensures after.hasPrev && before.next != null
    ensures before.hasPrev == old(before.hasPrev) && before.prev == old(before.prev) && after.next == old(after.next)
    ensures old(before.next) == null ==> before.next == after
    ensures !old(after.hasPrev) ==> after.prev == before
  {
    if before.next == null {
      before.next := after;
    }
    if !after.hasPrev {
      after.hasPrev, after.prev := true, before;
    }
  }

  method ReadSnapshot(reader: SnapshotReader, position: U64, ghost snaps: seq<Snap>, ghost k: nat,
                      ghost all: set<PySnapshot>)
    returns (o: PySnapshot)
    requires reader.data != null && Holds(reader.Image(), snaps) && k < |snaps| && position == snaps[k].pos
    requires AllLinked(snaps, all)
    ensures fresh(o) && o.index == k && o.view == View(snaps[k]) && AllLinked(snaps, all + {o})
    ensures !o.hasPrev && o.next == null
  {
    hide Holds;
    var view := reader.GetSnapshotAtPosition(position, snaps, k);
    o := new PySnapshot(view, k);
  }

  /** Where the links of the file lead. */
  lemma Positions(img: seq<Byte>, snaps: seq<Snap>, i: nat, j: nat)
    requires Holds(img, snaps) && i < |snaps| && j < |snaps|
    ensures snaps[j].prev == 0 <==> j == 0
    ensures snaps[j].prev == snaps[i].pos <==> j == i + 1
    ensures snaps[i].pos == LastPos(snaps) <==> i == |snaps| - 1
    ensures LastPos(snaps) != 0
    ensures j > 0 ==> snaps[j].prev == snaps[j - 1].pos
  {
    hide At, EncSnap;
    LinksGoBack(img, snaps, i);
    LinksGoBack(img, snaps, j);
    LinksGoBack(img, snaps, |snaps| - 1);
    Apart(img, snaps, i, |snaps| - 1);
    if j > 0 {
      LinksGoBack(img, snaps, j - 1);
      Apart(img, snaps, i, j - 1);
    }
  }

  lemma Apart(img: seq<Byte>, snaps: seq<Snap>, i: nat, j: nat)
    requires Holds(img, snaps) && i < |snaps| && j < |snaps|
    ensures snaps[i].pos == snaps[j].pos <==> i == j
  {
    hide At;
    if i < j {
      SnapsInOrder(img, snaps, i, j);
    } else if j < i {
      SnapsInOrder(img, snaps, j, i);
    }
  }

  /** The snapshot before, whichever objects have been made so far. */
  method GetPrevSnapshot(o: PySnapshot, reader: SnapshotReader, ghost snaps: seq<Snap>, ghost all: set<PySnapshot>)
    returns (p: PySnapshot?, ghost all': set<PySnapshot>)
    requires reader.data != null && Holds(reader.Image(), snaps) && AllLinked(snaps, all) && o in all
    modifies all
    ensures all <= all' && fresh(all' - all) && AllLinked(snaps, all')
    ensures p == null <==> o.index == 0
    ensures p != null ==> p in all' && p.index == o.index - 1 && p.view == View(snaps[p.index])
    ensures o.hasPrev && o.prev == p
  {
    hide Holds, View;
    all' := all;
    if o.hasPrev {
      return o.prev, all;
    }
    Positions(reader.data[..], snaps, o.index, o.index);
    PrevShown(snaps, o, all);
    if o.view.prevSnapshotPos == 0 {
      o.hasPrev, o.prev := true, null;
      return null, all;
    }
    var before := ReadSnapshot(reader, o.view.prevSnapshotPos, snaps, o.index - 1, all);
    all' := all + {before};
    LinkAdjacentSnapshots(before, o, snaps, all');
    p := before;
  }

  lemma PrevShown(snaps: seq<Snap>, o: PySnapshot, all: set<PySnapshot>)
    requires Linked(o, snaps, all)
    ensures o.view.prevSnapshotPos == snaps[o.index].prev && o.view.position == snaps[o.index].pos
  {
  }

  /**
   * The snapshot after: walk back from the latest, linking every pair passed, until the one whose
   * predecessor is asked about. The latest has none for now, and that is not remembered.
   */
  method GetNextSnapshot(o: PySnapshot, reader: SnapshotReader, ghost snaps: seq<Snap>, ghost all: set<PySnapshot>)
    returns (n: PySnapshot?, ghost all': set<PySnapshot>)
    requires reader.data != null && Holds(reader.Image(), snaps) && AllLinked(snaps, all) && o in all
    modifies all
    ensures all <= all' && fresh(all' - all) && AllLinked(snaps, all')
    ensures n == null <==> o.index == |snaps| - 1
    ensures n != null ==> n in all' && n.index == o.index + 1 && n.view == View(snaps[n.index])
    ensures o.next == n
  {
    hide Holds, View, At, LE;
    all' := all;
    if o.next != null {
      return o.next, all;
    }
    var img := reader.data[..];
    var last := LastSnapshotPos(reader, snaps);
    Positions(img, snaps, o.index, o.index);
    PrevShown(snaps, o, all);
    if last == 0 || o.view.position == last {
      return null, all;
    }
    ghost var k := |snaps| - 1;
    var cur := ReadSnapshot(reader, last, snaps, k, all);
    all' := all + {cur};
    while true
      invariant all <= all' && fresh(all' - all) && AllLinked(snaps, all') && cur in all' && fresh(cur)
      invariant o.next == null && cur.index == k && o.index < k < |snaps|
      decreases k
    {
      Positions(img, snaps, o.index, k);
      PrevShown(snaps, cur, all');
      if cur.view.prevSnapshotPos == o.view.position {
        LinkAdjacentSnapshots(o, cur, snaps, all');
        return cur, all';
      }
      var intermediate := ReadSnapshot(reader, cur.view.prevSnapshotPos, snaps, k - 1, all');
      all' := all' + {intermediate};
      LinkAdjacentSnapshots(intermediate, cur, snaps, all');
      cur, k := intermediate, k - 1;
    }
  }

  method LastSnapshotPos(reader: SnapshotReader, ghost snaps: seq<Snap>) returns (last: U64)
    requires reader.data != null && Holds(reader.Image(), snaps)
    ensures last == LastPos(snaps)
  {
    hide SnapOk, LE;
    if |snaps| > 0 {
      LinksGoBack(reader.data[..], snaps, |snaps| - 1);
    }
    last := Expect64(reader.data[..], LAST_SNAPSHOT_AT, LastPos(snaps));
  }
}
