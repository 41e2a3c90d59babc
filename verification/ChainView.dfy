/**
 * The exception chain as one flat list of rows: the frames of every exception, innermost exception
 * first, with a separator between neighbours. Rows are handed out in pages and under ids.
 */
module ChainView {
  import opened Bytes
  import opened Reading
  import opened ExceptionChain

  datatype Row = FrameRow(stack: U64, index: nat) | Separator(text: Label)

  /** One exception of the chain: how many frames it shows, and how it was reached. */
  datatype Group = Group(stack: U64, frameCount: nat, reached: Option<Label>)

  function FrameRows(stack: U64, count: nat): (rows: seq<Row>)
    ensures |rows| == count && forall i :: 0 <= i < count ==> rows[i] == FrameRow(stack, i)
  {
    seq(count, i requires 0 <= i < count => FrameRow(stack, i))
  }

  /** The rows before pruning: every group, and behind each but the last its separator. */
  function Flatten(groups: seq<Group>): seq<Row> {
    if groups == [] then []
    else
      var g := groups[0];
      FrameRows(g.stack, g.frameCount)
        + (if |groups| > 1 && g.reached.Some? then [Separator(g.reached.value)] else [])
        + Flatten(groups[1..])
  }

  // ------------------------------------------------------------------
  // Pruning
  // ------------------------------------------------------------------

  predicate EndsInFrame(rows: seq<Row>) {
    rows != [] && rows[|rows| - 1].FrameRow?
  }

  /** Drop separators that do not follow a frame. */
  function Drop(rows: seq<Row>, afterFrame: bool): seq<Row> {
    if rows == [] then []
    else if rows[0].Separator? && !afterFrame then Drop(rows[1..], false)
    else [rows[0]] + Drop(rows[1..], rows[0].FrameRow?)
  }

  function TrimEnd(rows: seq<Row>): seq<Row> {
    if rows != [] && rows[|rows| - 1].Separator? then TrimEnd(rows[..|rows| - 1]) else rows
  }

  function Pruned(rows: seq<Row>): seq<Row> {
    TrimEnd(Drop(rows, false))
  }

  /** One row of the first loop. */
  lemma DropStep(flat: seq<Row>, i: nat, result: seq<Row>)
    requires i < |flat|
    ensures
      result + Drop(flat[i..], EndsInFrame(result)) ==
        if flat[i].Separator? && !EndsInFrame(result) then result + Drop(flat[i + 1..], EndsInFrame(result))
        else result + [flat[i]] + Drop(flat[i + 1..], EndsInFrame(result + [flat[i]]))
  {
    assert flat[i..][1..] == flat[i + 1..];
  }

  method PruneOrphanSeparators(flat: seq<Row>) returns (result: seq<Row>)
    ensures result == Pruned(flat)
  {
    hide Drop, EndsInFrame;
    result := [];
    DropStarts(flat);
    for i := 0 to |flat|
      invariant result + Drop(flat[i..], EndsInFrame(result)) == Drop(flat, false)
    {
      DropStep(flat, i, result);
      if flat[i].Separator? && !EndsInFrame(result) {
        continue;
      }
      result := result + [flat[i]];
    }
    DropEnds(flat, result);
    while result != [] && result[|result| - 1].Separator?
      invariant TrimEnd(result) == Pruned(flat)
      decreases |result|
    {
      result := result[..|result| - 1];
    }
  }

  lemma DropStarts(flat: seq<Row>)
    ensures [] + Drop(flat[0..], EndsInFrame([])) == Drop(flat, false)
  {
    assert flat[0..] == flat;
  }

  lemma DropEnds(flat: seq<Row>, result: seq<Row>)
    ensures result + Drop(flat[|flat|..], EndsInFrame(result)) == result
  {
  }

  /** Every separator has a frame on both sides. */
  ghost predicate Clean(rows: seq<Row>) {
    forall i :: 0 <= i < |rows| && rows[i].Separator? ==>
      0 < i < |rows| - 1 && rows[i - 1].FrameRow? && rows[i + 1].FrameRow?
  }

  /** Every separator follows a frame; the last row may be one. */
  ghost predicate Led(rows: seq<Row>, afterFrame: bool) {
    && (forall i :: 0 < i < |rows| && rows[i].Separator? ==> rows[i - 1].FrameRow?)
    && (rows != [] && rows[0].Separator? ==> afterFrame)
  }

  lemma {:induction false} DropLeads(rows: seq<Row>, afterFrame: bool)
    ensures Led(Drop(rows, afterFrame), afterFrame)
  {
    if rows != [] {
      DropLeads(rows[1..], if rows[0].Separator? && !afterFrame then false else rows[0].FrameRow?);
    }
  }

  lemma {:induction false} TrimCleans(rows: seq<Row>)
    requires Led(rows, false)
    ensures Clean(TrimEnd(rows))
  {
    if rows != [] && rows[|rows| - 1].Separator? {
      TrimCleans(rows[..|rows| - 1]);
    } else {
      forall i | 0 <= i < |rows| && rows[i].Separator?
        ensures 0 < i < |rows| - 1 && rows[i - 1].FrameRow? && rows[i + 1].FrameRow?
      {
      }
    }
  }

  lemma {:induction false} DropNothing(rows: seq<Row>, afterFrame: bool)
    requires Led(rows, afterFrame)
    ensures Drop(rows, afterFrame) == rows
  {
    if rows != [] {
      assert |rows| > 1 && rows[1].Separator? ==> rows[0].FrameRow?;
      forall i | 0 < i < |rows[1..]| && rows[1..][i].Separator? ensures rows[1..][i - 1].FrameRow? {
        assert rows[i + 1].Separator? ==> rows[i].FrameRow?;
      }
      DropNothing(rows[1..], rows[0].FrameRow?);
    }
  }

  /** Pruning leaves no orphan, changes nothing that has none, and so need not be done twice. */
  lemma PruneCleans(rows: seq<Row>)
    ensures Clean(Pruned(rows))
    ensures Clean(rows) ==> Pruned(rows) == rows
    ensures Pruned(Pruned(rows)) == Pruned(rows)
  {
    DropLeads(rows, false);
    TrimCleans(Drop(rows, false));
    DropNothing(Pruned(rows), false);
    if Clean(rows) {
      DropNothing(rows, false);
    }
  }

  // ------------------------------------------------------------------
  // What the view shows
  // ------------------------------------------------------------------

  function NonEmpty(groups: seq<Group>): seq<Group> {
    if groups == [] then [] else (if groups[0].frameCount > 0 then [groups[0]] else []) + NonEmpty(groups[1..])
  }

  /** The frames of every group, and between neighbours one separator: that of the group above it. */
  function Joined(groups: seq<Group>): seq<Row> {
    if groups == [] then []
    else if |groups| == 1 || groups[0].reached.None?
      then FrameRows(groups[0].stack, groups[0].frameCount) + Joined(groups[1..])
    else FrameRows(groups[0].stack, groups[0].frameCount) + [Separator(groups[0].reached.value)] + Joined(groups[1..])
  }

  /** Every exception but the outermost, which comes last, was reached through a link. */
  ghost predicate AllReached(groups: seq<Group>) {
    forall i :: 0 <= i < |groups| - 1 ==> groups[i].reached.Some?
  }

  lemma {:induction false} DropFrames(frames: seq<Row>, rest: seq<Row>, afterFrame: bool)
    requires forall i :: 0 <= i < |frames| ==> frames[i].FrameRow?
    ensures Drop(frames + rest, afterFrame) == frames + Drop(rest, if frames == [] then afterFrame else true)
  {
    if frames == [] {
      assert frames + rest == rest;
      assert [] + Drop(rest, afterFrame) == Drop(rest, afterFrame);
    } else {
      assert (frames + rest)[1..] == frames[1..] + rest;
      DropFrames(frames[1..], rest, true);
      assert [frames[0]] + (frames[1..] + Drop(rest, true)) == frames + Drop(rest, true);
    }
  }

  lemma {:induction false} TrimBehind(front: seq<Row>, rows: seq<Row>)
    ensures TrimEnd(front + rows) == if TrimEnd(rows) == [] then TrimEnd(front) else front + TrimEnd(rows)
  {
    if rows == [] {
      assert front + rows == front;
    } else if rows[|rows| - 1].Separator? {
      assert (front + rows)[..|front + rows| - 1] == front + rows[..|rows| - 1];
      TrimBehind(front, rows[..|rows| - 1]);
    }
  }

  lemma {:induction false} NonEmptyReached(groups: seq<Group>)
    requires AllReached(groups)
    ensures AllReached(NonEmpty(groups))
    ensures forall i :: 0 <= i < |NonEmpty(groups)| ==> NonEmpty(groups)[i].frameCount > 0
    ensures |groups| > 1 && groups[0].frameCount > 0 ==> NonEmpty(groups)[0] == groups[0] && groups[0].reached.Some?
  {
    if groups != [] {
      NonEmptyReached(groups[1..]);
    }
  }

  /** After pruning, the view is the non-empty groups with one separator between neighbours and none at the ends. */
  lemma {:induction false} ViewShows(groups: seq<Group>)
    requires AllReached(groups)
    ensures Pruned(Flatten(groups)) == Joined(NonEmpty(groups))
  {
    if groups != [] {
      var g, rest := groups[0], groups[1..];
      var frames := FrameRows(g.stack, g.frameCount);
      var x := Drop(Flatten(rest), false);
      ViewShows(rest);
      if |groups| == 1 {
        assert Flatten(groups) == frames + [];
        DropFrames(frames, [], false);
        assert frames + [] == frames;
        assert NonEmpty(rest) == [];
        assert TrimEnd(frames) == frames;
      } else {
        var sep := [Separator(g.reached.value)];
        assert Flatten(groups) == frames + (sep + Flatten(rest));
        DropFrames(frames, sep + Flatten(rest), false);
        assert (sep + Flatten(rest))[1..] == Flatten(rest);
        GroupThen(g, rest, frames, sep, x);
      }
    }
  }

  lemma GroupThen(g: Group, rest: seq<Group>, frames: seq<Row>, sep: seq<Row>, x: seq<Row>)
    requires AllReached([g] + rest) && rest != [] && g.reached.Some?
    requires frames == FrameRows(g.stack, g.frameCount) && sep == [Separator(g.reached.value)]
    requires TrimEnd(x) == Joined(NonEmpty(rest))
    ensures TrimEnd(if frames == [] then x else frames + (sep + x)) == Joined(NonEmpty([g] + rest))
  {
    assert ([g] + rest)[1..] == rest;
    NonEmptyReached(rest);
    if frames == [] {
      assert [] + NonEmpty(rest) == NonEmpty(rest);
    } else {
      TrimBehind(sep, x);
      TrimBehind(frames, sep + x);
      assert NonEmpty([g] + rest) == [g] + NonEmpty(rest);
      assert ([g] + NonEmpty(rest))[1..] == NonEmpty(rest);
      if NonEmpty(rest) == [] {
        assert sep[..0] == [];
        assert TrimEnd(frames) == frames == frames + [];
      } else {
        JoinedNonEmpty(NonEmpty(rest));
        assert frames + (sep + Joined(NonEmpty(rest))) == frames + sep + Joined(NonEmpty(rest));
      }
    }
  }

  lemma JoinedNonEmpty(groups: seq<Group>)
    requires groups != [] && groups[0].frameCount > 0
    ensures Joined(groups) != []
  {
  }

  // ------------------------------------------------------------------
  // Pages
  // ------------------------------------------------------------------

  /** The rows a request asks for; no levels means all, and out-of-range bounds are clipped. */
  function Page(rows: seq<Row>, start: int, levels: int): seq<Row> {
    var first := if start < 0 then 0 else start;
    var end := if levels <= 0 || first + levels > |rows| then |rows| else first + levels;
    if first >= end then [] else rows[first..end]
  }

  /** The first `n` pages of a fixed size, one after another. */
  function Pages(rows: seq<Row>, levels: nat, n: nat): seq<Row> {
    if n == 0 then [] else Pages(rows, levels, n - 1) + Page(rows, (n - 1) * levels, levels)
  }

  /** The first rows of a view, or all if there are fewer. */
  function Leading(rows: seq<Row>, count: nat): seq<Row> {
    if count < |rows| then rows[..count] else rows
  }

  lemma PageFollows(rows: seq<Row>, start: nat, levels: nat)
    requires levels > 0
    ensures Leading(rows, start) + Page(rows, start, levels) == Leading(rows, start + levels)
  {
  }

  /** Paging through the view shows each row once and in order. */
  lemma {:induction false} PagesConcat(rows: seq<Row>, levels: nat, n: nat)
    requires levels > 0
    ensures Pages(rows, levels, n) == Leading(rows, n * levels)
  {
    hide Leading, Page;
    if n > 0 {
      PagesConcat(rows, levels, n - 1);
      PageFollows(rows, (n - 1) * levels, levels);
      assert n * levels == (n - 1) * levels + levels;
    } else {
      NoRowsLeading(rows);
    }
  }

  lemma NoRowsLeading(rows: seq<Row>)
    ensures Leading(rows, 0) == []
  {
  }

  // ------------------------------------------------------------------
  // Ids
  // ------------------------------------------------------------------

  /** Which row an id was handed out for. */
  class FrameRegistry {
    var frames: map<nat, (U64, nat)>
    var frameIds: map<(U64, nat), nat>
    var separatorFrames: map<nat, Label>
    var nextFrameId: nat

    ghost predicate Valid()
      reads this
    {
      && (forall id :: id in frames ==> id < nextFrameId && frames[id] in frameIds && frameIds[frames[id]] == id)
      && (forall key :: key in frameIds ==> frameIds[key] in frames && frames[frameIds[key]] == key)
      && (forall id :: id in separatorFrames ==> id < nextFrameId && id !in frames)
    }

    constructor ()
      ensures Valid() && frames == map[] && separatorFrames == map[]
    {
      frames, frameIds, separatorFrames, nextFrameId := map[], map[], map[], 1;
    }

    /** Ids handed out stay what they are. */
    twostate predicate Keeps()
      reads this
    {
      && old(nextFrameId) <= nextFrameId
      && (forall id :: id in old(frames) ==> id in frames && frames[id] == old(frames)[id])
      && (forall id :: id in old(separatorFrames) ==>
          id in separatorFrames && separatorFrames[id] == old(separatorFrames)[id])
    }

    /** The id of a frame: the same one every time. */
    method RegisterFrame(stack: U64, index: nat) returns (frameId: nat)
      requires Valid()
      modifies this
      ensures Valid() && Keeps() && frameId in frames && frames[frameId] == (stack, index)
      ensures (stack, index) in old(frameIds) ==> frameId == old(frameIds)[(stack, index)]
    {
      var key := (stack, index);
      if key in frameIds {
        return frameIds[key];
      }
      frameId := nextFrameId;
      nextFrameId := nextFrameId + 1;
      frames := frames[frameId := key];
      frameIds := frameIds[key := frameId];
    }

    /** A separator gets a new id each time it is shown. */
    method RegisterSeparator(text: Label) returns (frameId: nat)
      requires Valid()
      modifies this
      ensures Valid() && Keeps() && frameId in separatorFrames && separatorFrames[frameId] == text
      ensures frameId !in old(frames)
    {
      frameId := nextFrameId;
      nextFrameId := nextFrameId + 1;
      separatorFrames := separatorFrames[frameId := text];
    }

    /** The id stands for the row. */
    ghost predicate Stands(frameId: nat, row: Row)
      reads this
    {
      match row
      case FrameRow(stack, index) => frameId in frames && frames[frameId] == (stack, index)
      case Separator(text) => frameId in separatorFrames && separatorFrames[frameId] == text
    }

    /** Hand out the rows of a page. */
    method RegisterRows(rows: seq<Row>) returns (ids: seq<nat>)
      requires Valid()
      modifies this
      ensures Valid() && Keeps() && |ids| == |rows|
      ensures forall i :: 0 <= i < |rows| ==> Stands(ids[i], rows[i])
    {
      ids := [];
      for i := 0 to |rows|
        invariant Valid() && Keeps() && |ids| == i
        invariant forall j :: 0 <= j < i ==> Stands(ids[j], rows[j])
      {
        var id;
        match rows[i] {
          case FrameRow(stack, index) => id := RegisterFrame(stack, index);
          case Separator(text) => id := RegisterSeparator(text);
        }
        ids := ids + [id];
      }
    }

    /** One id never stands for two rows, and one frame never has two ids. */
    lemma IdsUnique(id: nat, id': nat, row: Row, row': Row)
      requires Valid() && Stands(id, row) && Stands(id', row')
      ensures id == id' ==> row == row'
      ensures row == row' && row.FrameRow? ==> id == id'
    {
    }
  }

  // ------------------------------------------------------------------
  // The view of a snapshot
  // ------------------------------------------------------------------

  /** The exceptions of a chain, innermost first, with the number of frames each has to show. */
  function GroupsOf(chain: seq<U64>, reached: seq<Option<Label>>, visible: map<U64, nat>): (groups: seq<Group>)
    requires |reached| == |chain|
    ensures |groups| == |chain|
  {
    seq(|chain|, i requires 0 <= i < |chain| =>
      var at := |chain| - 1 - i;
      Group(chain[at], if chain[at] in visible then visible[chain[at]] else 0, reached[at]))
  }

  lemma ChainReached(table: Table, chain: seq<U64>, reached: seq<Option<Label>>, visible: map<U64, nat>)
    requires Labelled(table, chain, reached)
    ensures AllReached(GroupsOf(chain, reached, visible))
  {
    var groups := GroupsOf(chain, reached, visible);
    forall i | 0 <= i < |groups| - 1 ensures groups[i].reached.Some? {
      assert LabelledAt(table, chain, reached, |chain| - 1 - i);
    }
  }

  lemma FlattenNext(groups: seq<Group>, i: nat)
    requires i < |groups|
    ensures
      var g := groups[i];
      Flatten(groups[i..]) == FrameRows(g.stack, g.frameCount)
        + (if i < |groups| - 1 && g.reached.Some? then [Separator(g.reached.value)] else [])
        + Flatten(groups[i + 1..])
  {
    assert groups[i..][1..] == groups[i + 1..];
  }

  method AppendFrames(flat: seq<Row>, stack: U64, count: nat) returns (flat': seq<Row>)
    ensures flat' == flat + FrameRows(stack, count)
  {
    flat' := flat;
    for k := 0 to count
      invariant flat' == flat + FrameRows(stack, k)
    {
      flat' := flat' + [FrameRow(stack, k)];
    }
  }

  /** Frames of each exception, then its separator if it has one and something is below it. */
  method BuildRows(groups: seq<Group>) returns (flat: seq<Row>)
    ensures flat == Flatten(groups)
  {
    hide Flatten;
    flat := [];
    NoGroups();
    assert groups[0..] == groups && [] + Flatten(groups) == Flatten(groups);
    for i := 0 to |groups|
      invariant flat + Flatten(groups[i..]) == Flatten(groups)
    {
      var g := groups[i];
      FlattenNext(groups, i);
      ghost var before, rest := flat, Flatten(groups[i + 1..]);
      flat := AppendFrames(flat, g.stack, g.frameCount);
      ghost var sep := if i < |groups| - 1 && g.reached.Some? then [Separator(g.reached.value)] else [];
      if i < |groups| - 1 && g.reached.Some? {
        flat := flat + [Separator(g.reached.value)];
      }
      assert flat + rest == before + (FrameRows(g.stack, g.frameCount) + sep + rest);
    }
    assert groups[|groups|..] == [] && flat + [] == flat;
  }

  lemma NoGroups()
    ensures Flatten([]) == []
  {
  }

  /**
   * A page of the chain view: out of the non-empty exceptions of the chain, innermost first and
   * separated, the rows asked for, each under an id that stands for it.
   */
  method BuildExceptionChainStackTrace(registry: FrameRegistry, snapshot: StacktraceDict, root: U64,
                                       visible: map<U64, nat>, start: int, levels: int)
    returns (ids: seq<nat>, rows: seq<Row>, total: nat)
    requires registry.Valid() && snapshot.Valid() && root in snapshot.table
    modifies registry, snapshot.repr
    ensures registry.Valid() && registry.Keeps() && snapshot.Valid()
    ensures
      var chain := ChainFrom(snapshot.table, root);
      exists reached :: Labelled(snapshot.table, chain, reached)
        && var view := Joined(NonEmpty(GroupsOf(chain, reached, visible)));
           total == |view| && rows == Page(view, start, levels)
    ensures |ids| == |rows| && forall i :: 0 <= i < |rows| ==> registry.Stands(ids[i], rows[i])
  {
    hide Pruned, Flatten, Joined, NonEmpty, ChainFrom, Labelled;
    var chain, reached := CollectChain(snapshot, root);
    LabelCount(snapshot.table, chain, reached);
    var groups := GroupsOf(chain, reached, visible);
    var flat := BuildRows(groups);
    flat := PruneOrphanSeparators(flat);
    ChainReached(snapshot.table, chain, reached, visible);
    ViewShows(groups);
    total := |flat|;
    rows := Page(flat, start, levels);
    ids := registry.RegisterRows(rows);
  }

  lemma LabelCount(table: Table, chain: seq<U64>, reached: seq<Option<Label>>)
    requires Labelled(table, chain, reached)
    ensures |reached| == |chain|
  {
  }
}
