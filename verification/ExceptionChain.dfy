/**
 * Exception chains as captured and as read back. A captured exception is a stacktrace that names its
 * cause and its context by stacktrace id, itself if it has none. Five readers follow the chain.
 */
module ExceptionChain {
  import opened Bytes
  import opened Format
  import opened Reading

  const MAX_CHAIN_DEPTH := 10

  // ------------------------------------------------------------------
  // The links of one stacktrace
  // ------------------------------------------------------------------

  type Table = map<U64, Stack>

  /** Every stacktrace is filed under its own id. */
  ghost predicate Filed(table: Table) {
    forall id :: id in table ==> table[id].info.id == id
  }

  /** What `get_cause` and `get_context` find: no link to itself, and none to a stacktrace that was not kept. */
  function Linked(table: Table, st: Stack, target: U64): Option<U64> {
    if target == st.info.id || target !in table then None else Some(target)
  }

  function CauseOf(table: Table, id: U64): Option<U64>
    requires id in table
  {
    Linked(table, table[id], table[id].info.causeId)
  }

  function ContextOf(table: Table, id: U64): Option<U64>
    requires id in table
  {
    Linked(table, table[id], table[id].info.contextId)
  }

  /** The cause if there is one, and else the context. */
  function NextOf(table: Table, id: U64): (next: Option<U64>)
    requires id in table
    ensures next.Some? ==> next.value in table && next.value != table[id].info.id
  {
    if CauseOf(table, id).Some? then CauseOf(table, id) else ContextOf(table, id)
  }

  /** A stacktrace as Python sees it: the links it has looked up stay cached on it. */
  class StacktraceObject {
    const id: U64
    const table: Table
    var cause: Option<Option<U64>>
    var context: Option<Option<U64>>

    ghost predicate Valid()
      reads this
    {
      && id in table && Filed(table)
      && (cause.Some? ==> cause.value == CauseOf(table, id))
      && (context.Some? ==> context.value == ContextOf(table, id))
    }

    constructor (i: U64, t: Table)
      requires i in t && Filed(t)
      ensures Valid() && id == i && table == t
    {
      id, table, cause, context := i, t, None, None;
    }

    method GetCause() returns (next: Option<U64>)
      requires Valid()
      modifies this
      ensures Valid() && next == CauseOf(table, id)
    {
      if cause.Some? {
        return cause.value;
      }
      var st := table[id];
      next := None;
      if st.info.causeId != st.info.id && st.info.causeId in table {
        next := Some(st.info.causeId);
      }
      cause := Some(next);
    }

    method GetContext() returns (next: Option<U64>)
      requires Valid()
      modifies this
      ensures Valid() && next == ContextOf(table, id)
    {
      if context.Some? {
        return context.value;
      }
      var st := table[id];
      next := None;
      if st.info.contextId != st.info.id && st.info.contextId in table {
        next := Some(st.info.contextId);
      }
      context := Some(next);
    }
  }

  // ------------------------------------------------------------------
  // The walk that every reader takes
  // ------------------------------------------------------------------

  /** The stacktraces visited from `id` on: cause first, at most `hops` more, and none twice. */
  function Trail(table: Table, id: U64, seen: set<U64>, hops: nat): (trail: seq<U64>)
    requires id in table
    ensures trail != [] && trail[0] == id && |trail| <= hops + 1
    ensures forall i :: 0 <= i < |trail| ==> trail[i] in table
    decreases hops
  {
    var next := NextOf(table, id);
    if hops == 0 || next.None? || next.value in seen then [id]
    else [id] + Trail(table, next.value, seen + {next.value}, hops - 1)
  }

  function ChainFrom(table: Table, root: U64): (trail: seq<U64>)
    requires root in table
    ensures trail != [] && forall i :: 0 <= i < |trail| ==> trail[i] in table
  {
    Trail(table, root, {root}, MAX_CHAIN_DEPTH)
  }

  /** One more step of a walk that has come as far as `walked`. */
  ghost predicate WalkedSoFar(table: Table, root: U64, walked: seq<U64>, seen: set<U64>, depth: nat) {
    && root in table && walked != [] && walked[|walked| - 1] in table && depth <= MAX_CHAIN_DEPTH
    && |walked| == depth + 1
    && (forall id :: id in seen <==> id in walked)
    && ChainFrom(table, root) == walked[..depth] + Trail(table, walked[depth], seen, MAX_CHAIN_DEPTH - depth)
  }

  lemma WalkStarts(table: Table, root: U64)
    requires root in table
    ensures WalkedSoFar(table, root, [root], {root}, 0)
  {
    assert [root][..0] + ChainFrom(table, root) == ChainFrom(table, root);
  }

  lemma TrailStep(table: Table, id: U64, seen: set<U64>, hops: nat)
    requires id in table
    ensures
      var next := NextOf(table, id);
      Trail(table, id, seen, hops) ==
        if hops == 0 || next.None? || next.value in seen then [id]
        else [id] + Trail(table, next.value, seen + {next.value}, hops - 1)
  {
  }

  lemma WalkSteps(table: Table, root: U64, walked: seq<U64>, seen: set<U64>, depth: nat, next: U64)
    requires WalkedSoFar(table, root, walked, seen, depth) && depth < MAX_CHAIN_DEPTH
    requires NextOf(table, walked[depth]) == Some(next) && next !in seen
    ensures WalkedSoFar(table, root, walked + [next], seen + {next}, depth + 1)
  {
    hide Trail, NextOf, ChainFrom;
    TrailStep(table, walked[depth], seen, MAX_CHAIN_DEPTH - depth);
    var rest := Trail(table, next, seen + {next}, MAX_CHAIN_DEPTH - depth - 1);
    Shifted(walked, depth, next, rest);
    SeenGrows(walked, seen, next);
  }

  lemma SeenGrows(walked: seq<U64>, seen: set<U64>, next: U64)
    requires forall id :: id in seen <==> id in walked
    ensures forall id :: id in seen + {next} <==> id in walked + [next]
  {
  }

  lemma Shifted(walked: seq<U64>, depth: nat, next: U64, rest: seq<U64>)
    requires |walked| == depth + 1
    ensures walked[..depth] + ([walked[depth]] + rest) == (walked + [next])[..depth + 1] + rest
  {
    assert (walked + [next])[..depth + 1] == walked;
  }

  lemma WalkStops(table: Table, root: U64, walked: seq<U64>, seen: set<U64>, depth: nat)
    requires WalkedSoFar(table, root, walked, seen, depth)
    requires depth == MAX_CHAIN_DEPTH || NextOf(table, walked[depth]).None?
      || NextOf(table, walked[depth]).value in seen
    ensures walked == ChainFrom(table, root)
  {
    hide Trail, NextOf, ChainFrom;
    TrailStep(table, walked[depth], seen, MAX_CHAIN_DEPTH - depth);
    assert walked == walked[..depth] + [walked[depth]];
  }

  // ------------------------------------------------------------------
  // The five readers
  // ------------------------------------------------------------------

  /** The stacktraces of a snapshot, one Python object for each. */
  class StacktraceDict {
    const table: Table
    const objects: map<U64, StacktraceObject>

    ghost const repr: set<StacktraceObject>

    constructor (t: Table)
      requires Filed(t)
      ensures Valid() && table == t && fresh(repr)
    {
      var made := MakeObjects(t);
      table, objects, repr := t, made, set id | id in made :: made[id];
    }

    ghost predicate Valid()
      reads this, repr
    {
      && Filed(table) && objects.Keys == table.Keys
      && (forall id :: id in objects ==>
          objects[id] in repr && objects[id].id == id && objects[id].table == table && objects[id].Valid())
    }
  }

  /** A Python object for every stacktrace. */
  method MakeObjects(t: Table) returns (objects: map<U64, StacktraceObject>)
    requires Filed(t)
    ensures objects.Keys == t.Keys
    ensures forall id :: id in objects ==>
      fresh(objects[id]) && objects[id].id == id && objects[id].table == t && objects[id].Valid()
  {
    hide Filed, CauseOf, ContextOf, StacktraceObject.Valid;
    objects := map[];
    var left := t.Keys;
    while left != {}
      invariant left <= t.Keys && objects.Keys == t.Keys - left
      invariant forall id :: id in objects ==>
        fresh(objects[id]) && objects[id].id == id && objects[id].table == t && objects[id].Valid()
      decreases |left|
    {
      var id :| id in left;
      var st := new StacktraceObject(id, t);
      objects, left := objects[id := st], left - {id};
    }
  }

  /** The next stacktrace of a walk: get_cause first, then get_context. Every reader starts like this. */
  method FollowLink(snapshot: StacktraceDict, current: U64) returns (next: Option<U64>, isCause: bool)
    requires snapshot.Valid() && current in snapshot.table
    modifies snapshot.repr
    ensures snapshot.Valid() && next == NextOf(snapshot.table, current)
    ensures isCause <==> CauseOf(snapshot.table, current).Some?
  {
    next := snapshot.objects[current].GetCause();
    isCause := next.Some?;
    if next.None? {
      next := snapshot.objects[current].GetContext();
    }
  }

  datatype Label = CausedBy | DuringHandlingOf

  /** How the second of two stacktraces of a trail was reached from the first. */
  function LabelOf(table: Table, from: U64): Label
    requires from in table
  {
    if CauseOf(table, from).Some? then CausedBy else DuringHandlingOf
  }

  /** The label of a stacktrace says how it was reached from the one before. */
  ghost predicate LabelledAt(table: Table, trail: seq<U64>, labels: seq<Option<Label>>, i: int) {
    && 0 < i < |trail| && i < |labels|
    && trail[i - 1] in table && labels[i] == Some(LabelOf(table, trail[i - 1]))
  }

  /** Labels for all but the first stacktrace of a trail. */
  ghost predicate Labelled(table: Table, trail: seq<U64>, labels: seq<Option<Label>>) {
    && |labels| == |trail| && (labels != [] ==> labels[0] == None)
    && forall i :: 0 < i < |trail| ==> LabelledAt(table, trail, labels, i)
  }

  lemma LabelledMore(table: Table, trail: seq<U64>, labels: seq<Option<Label>>, next: U64)
    requires trail != [] && trail[|trail| - 1] in table && Labelled(table, trail, labels)
    ensures Labelled(table, trail + [next], labels + [Some(LabelOf(table, trail[|trail| - 1]))])
  {
    var trail', labels' := trail + [next], labels + [Some(LabelOf(table, trail[|trail| - 1]))];
    forall i | 0 < i < |trail'| ensures LabelledAt(table, trail', labels', i) {
      if i < |trail| {
        assert LabelledAt(table, trail, labels, i);
      }
    }
  }

  /** The chain view of the debug session: the stacktraces, and how each was reached. */
  method CollectChain(snapshot: StacktraceDict, root: U64) returns (chain: seq<U64>, labels: seq<Option<Label>>)
    requires snapshot.Valid() && root in snapshot.table
    modifies snapshot.repr
    ensures snapshot.Valid() && chain == ChainFrom(snapshot.table, root) && Labelled(snapshot.table, chain, labels)
  {
    hide Trail, ChainFrom, NextOf, WalkedSoFar, CauseOf;
    chain, labels := [root], [None];
    var seen, current, depth := {root}, root, 0;
    WalkStarts(snapshot.table, root);
    while depth < MAX_CHAIN_DEPTH
      invariant snapshot.Valid() && 0 <= depth <= MAX_CHAIN_DEPTH && |chain| == depth + 1 && chain[depth] == current
      invariant current in snapshot.table
      invariant WalkedSoFar(snapshot.table, root, chain, seen, depth) && Labelled(snapshot.table, chain, labels)
    {
      var next, isCause := FollowLink(snapshot, current);
      NextInTable(snapshot.table, current);
      if next.None? || next.value in seen {
        break;
      }
      WalkSteps(snapshot.table, root, chain, seen, depth, next.value);
      LabelledMore(snapshot.table, chain, labels, next.value);
      seen, chain := seen + {next.value}, chain + [next.value];
      labels := labels + [Some(if isCause then CausedBy else DuringHandlingOf)];
      current, depth := next.value, depth + 1;
    }
    WalkStops(snapshot.table, root, chain, seen, depth);
  }

  lemma NextInTable(table: Table, id: U64)
    requires id in table
    ensures NextOf(table, id).Some? ==> NextOf(table, id).value in table
  {
  }

  /** The exception whose text goes over the editor: the end of the chain. */
  method PickInnermost(snapshot: StacktraceDict, root: U64) returns (innermost: U64)
    requires snapshot.Valid() && root in snapshot.table
    modifies snapshot.repr
    ensures snapshot.Valid()
    ensures
      var chain := ChainFrom(snapshot.table, root);
      innermost == chain[|chain| - 1]
  {
    hide Trail, ChainFrom, NextOf, WalkedSoFar;
    innermost := root;
    var seen, depth := {root}, 0;
    ghost var chain := [root];
    WalkStarts(snapshot.table, root);
    while depth < MAX_CHAIN_DEPTH
      invariant snapshot.Valid() && 0 <= depth <= MAX_CHAIN_DEPTH && |chain| == depth + 1 && chain[depth] == innermost
      invariant innermost in snapshot.table
      invariant WalkedSoFar(snapshot.table, root, chain, seen, depth)
    {
      var next, _ := FollowLink(snapshot, innermost);
      NextInTable(snapshot.table, innermost);
      if next.None? || next.value in seen {
        break;
      }
      WalkSteps(snapshot.table, root, chain, seen, depth, next.value);
      seen, innermost, depth, chain := seen + {next.value}, next.value, depth + 1, chain + [next.value];
    }
    WalkStops(snapshot.table, root, chain, seen, depth);
  }

  /** An exception node of the protocol, with the one that led to it nested inside. */
  datatype Details = Details(id: U64, inner: Option<Details>)

  function NestedIds(d: Details): seq<U64> {
    [d.id] + if d.inner.Some? then NestedIds(d.inner.value) else []
  }

  method BuildDetails(snapshot: StacktraceDict, id: U64, depth: nat, seen: set<U64>) returns (node: Details)
    requires snapshot.Valid() && id in snapshot.table && depth <= MAX_CHAIN_DEPTH
    modifies snapshot.repr
    ensures snapshot.Valid() && NestedIds(node) == Trail(snapshot.table, id, seen, MAX_CHAIN_DEPTH - depth)
    decreases MAX_CHAIN_DEPTH - depth
  {
    hide NextOf;
    node := Details(id, None);
    if depth >= MAX_CHAIN_DEPTH {
      return;
    }
    var next, _ := FollowLink(snapshot, id);
    NextInTable(snapshot.table, id);
    if next.None? || next.value in seen {
      return;
    }
    var inner := BuildDetails(snapshot, next.value, depth + 1, seen + {next.value});
    node := Details(id, Some(inner));
  }

  datatype Piece = Rendered(id: U64) | CauseMessage | ContextMessage | TruncatedNote | LoopNote

  function RenderedIds(pieces: seq<Piece>): seq<U64> {
    if pieces == [] then []
    else RenderedIds(pieces[..|pieces| - 1]) + if pieces[|pieces| - 1].Rendered? then [pieces[|pieces| - 1].id] else []
  }

  lemma RenderedMore(pieces: seq<Piece>, p: Piece)
    ensures RenderedIds(pieces + [p]) == RenderedIds(pieces) + if p.Rendered? then [p.id] else []
  {
    assert (pieces + [p])[..|pieces|] == pieces;
  }

  /** Why a rendered chain ends: no link, a link back, or the cap, which is noted even if nothing is left out. */
  function Ending(table: Table, chain: seq<U64>): (last: Option<Piece>)
    requires chain != [] && chain[|chain| - 1] in table
  {
    if |chain| > MAX_CHAIN_DEPTH then Some(TruncatedNote)
    else if NextOf(table, chain[|chain| - 1]).Some? then Some(LoopNote)
    else None
  }

  method FormatChain(snapshot: StacktraceDict, root: U64) returns (pieces: seq<Piece>)
    requires snapshot.Valid() && root in snapshot.table
    modifies snapshot.repr
    ensures snapshot.Valid() && RenderedIds(pieces) == ChainFrom(snapshot.table, root)
    ensures
      var chain := ChainFrom(snapshot.table, root);
      var last := pieces[|pieces| - 1];
      pieces != []
        && (if last.Rendered? then Ending(snapshot.table, chain) == None
            else Ending(snapshot.table, chain) == Some(last))
  {
    hide Trail, ChainFrom, WalkedSoFar, CauseOf, ContextOf;
    pieces := [Rendered(root)];
    RenderedMore([], Rendered(root));
    assert [] + [Rendered(root)] == pieces && [] + [root] == [root];
    var seen, current, depth := {root}, root, 0;
    ghost var chain := [root];
    WalkStarts(snapshot.table, root);
    while true
      invariant snapshot.Valid() && 0 <= depth <= MAX_CHAIN_DEPTH && |chain| == depth + 1 && chain[depth] == current
      invariant current in snapshot.table
      invariant WalkedSoFar(snapshot.table, root, chain, seen, depth)
      invariant RenderedIds(pieces) == chain && pieces != [] && pieces[|pieces| - 1].Rendered?
      decreases MAX_CHAIN_DEPTH - depth
    {
      NextInTable(snapshot.table, current);
      if depth >= MAX_CHAIN_DEPTH {
        WalkStops(snapshot.table, root, chain, seen, depth);
        RenderedMore(pieces, TruncatedNote);
        pieces := pieces + [TruncatedNote];
        return;
      }
      var next, isCause := FollowLink(snapshot, current);
      if next.None? {
        WalkStops(snapshot.table, root, chain, seen, depth);
        return;
      }
      if next.value in seen {
        WalkStops(snapshot.table, root, chain, seen, depth);
        RenderedMore(pieces, LoopNote);
        pieces := pieces + [LoopNote];
        return;
      }
      WalkSteps(snapshot.table, root, chain, seen, depth, next.value);
      var message := if isCause then CauseMessage else ContextMessage;
      RenderedMore(pieces, message);
      RenderedMore(pieces + [message], Rendered(next.value));
      pieces := pieces + [message] + [Rendered(next.value)];
      seen, current, depth, chain := seen + {next.value}, next.value, depth + 1, chain + [next.value];
    }
  }

  /** A reconstructed exception, and whether it is the cause of the one before it or its context. */
  datatype Synthetic = Synthetic(id: U64, asCause: bool)

  /** The head, then each exception wired to the one before it. */
  method ReconstructException(snapshot: StacktraceDict, root: U64, hasException: bool) returns (chain: seq<Synthetic>)
    requires snapshot.Valid() && root in snapshot.table
    modifies snapshot.repr
    ensures snapshot.Valid()
    ensures !hasException || snapshot.table[root].frames == [] ==> chain == []
    ensures hasException && snapshot.table[root].frames != [] ==>
      && |chain| == |ChainFrom(snapshot.table, root)|
      && (forall i :: 0 <= i < |chain| ==> chain[i].id == ChainFrom(snapshot.table, root)[i])
      && (forall i :: 0 < i < |chain| ==> (chain[i].asCause <==> CauseOf(snapshot.table, chain[i - 1].id).Some?))
  {
    hide Trail, ChainFrom, NextOf, WalkedSoFar, CauseOf;
    if !hasException || snapshot.table[root].frames == [] {
      return [];
    }
    chain := [Synthetic(root, false)];
    var seen, current, depth := {root}, root, 0;
    ghost var walked := [root];
    WalkStarts(snapshot.table, root);
    while depth < MAX_CHAIN_DEPTH
      invariant snapshot.Valid() && 0 <= depth <= MAX_CHAIN_DEPTH && |walked| == |chain| == depth + 1
      invariant current in snapshot.table
      invariant walked[depth] == current && WalkedSoFar(snapshot.table, root, walked, seen, depth)
      invariant forall i :: 0 <= i < |chain| ==> chain[i].id == walked[i] && walked[i] in snapshot.table
      invariant forall i :: 0 < i < |chain| ==> (chain[i].asCause <==> CauseOf(snapshot.table, chain[i - 1].id).Some?)
    {
      var next, wireCause := FollowLink(snapshot, current);
      NextInTable(snapshot.table, current);
      if next.None? || next.value in seen {
        break;
      }
      WalkSteps(snapshot.table, root, walked, seen, depth, next.value);
      chain := chain + [Synthetic(next.value, wireCause)];
      seen, current, depth, walked := seen + {next.value}, next.value, depth + 1, walked + [next.value];
    }
    WalkStops(snapshot.table, root, walked, seen, depth);
  }

  // ------------------------------------------------------------------
  // Exceptions as they are, and the ids they are captured under
  // ------------------------------------------------------------------

  /** The links of a live exception. */
  datatype Links = Links(cause: Option<U64>, context: Option<U64>, suppressed: bool)

  /** Where a capture goes from an exception: to its cause, or to a context that is not suppressed. */
  function Follow(e: Links): Option<U64> {
    if e.cause.Some? then e.cause else if e.suppressed then None else e.context
  }

  ghost predicate ClosedLinks(excs: map<U64, Links>) {
    forall id :: id in excs && Follow(excs[id]).Some? ==> Follow(excs[id]).value in excs
  }

  /** The chain of an exception: followed until it ends or comes back. */
  ghost predicate IsChain(excs: map<U64, Links>, root: U64, chain: seq<U64>) {
    && chain != [] && chain[0] == root
    && (forall i :: 0 <= i < |chain| ==> chain[i] in excs)
    && (forall i, j :: 0 <= i < j < |chain| ==> chain[i] != chain[j])
    && (forall i :: 0 <= i < |chain| - 1 ==> Follow(excs[chain[i]]) == Some(chain[i + 1]))
    && (Follow(excs[chain[|chain| - 1]]).Some? ==> Follow(excs[chain[|chain| - 1]]).value in chain)
  }

  /** Exceptions are numbered from 1 along the chain; a link out of the chain, or none, is to oneself. */
  ghost function LinkId(chain: seq<U64>, target: Option<U64>, own: int): int {
    if target.Some? && target.value in chain then IndexOf(chain, target.value) + 1 else own
  }

  ghost function IndexOf(chain: seq<U64>, e: U64): (i: nat)
    requires e in chain
    ensures i < |chain| && chain[i] == e
  {
    var i :| 0 <= i < |chain| && chain[i] == e;
    i
  }

  ghost predicate InfoFor(excs: map<U64, Links>, chain: seq<U64>, i: int, info: StackInfo)
    requires 0 <= i < |chain| && chain[i] in excs
  {
    && info.id == i + 1 && info.exceptionId == chain[i] && info.threadName == []
    && info.causeId == LinkId(chain, excs[chain[i]].cause, i + 1)
    && info.contextId == LinkId(chain, excs[chain[i]].context, i + 1)
  }

  /** A table that holds the whole chain. */
  ghost predicate HoldsChain(excs: map<U64, Links>, chain: seq<U64>, table: Table) {
    && (forall i :: 0 <= i < |chain| ==> HoldsAt(excs, chain, table, i))
    && (forall id :: id in table ==> 1 <= id <= |chain|)
  }

  ghost predicate HoldsAt(excs: map<U64, Links>, chain: seq<U64>, table: Table, i: int) {
    0 <= i < |chain| && chain[i] in excs && i + 1 in table && InfoFor(excs, chain, i, table[i + 1].info)
  }

  lemma ChainLink(excs: map<U64, Links>, root: U64, chain: seq<U64>, i: nat)
    requires IsChain(excs, root, chain) && i < |chain|
    ensures chain[i] in excs
    ensures i < |chain| - 1 ==> Follow(excs[chain[i]]) == Some(chain[i + 1]) && IndexOf(chain, chain[i + 1]) == i + 1
  {
    if i < |chain| - 1 {
      assert Follow(excs[chain[i]]) == Some(chain[i + 1]);
      var j := IndexOf(chain, chain[i + 1]);
      assert chain[j] == chain[i + 1];
    }
  }

  lemma Held(excs: map<U64, Links>, chain: seq<U64>, table: Table, i: nat)
    requires HoldsChain(excs, chain, table) && i < |chain|
    ensures chain[i] in excs && i + 1 in table && InfoFor(excs, chain, i, table[i + 1].info)
    ensures i + 1 < |chain| ==> i + 2 in table
    ensures forall id :: id in table ==> 1 <= id <= |chain|
  {
    assert HoldsAt(excs, chain, table, i);
    if i + 1 < |chain| {
      assert HoldsAt(excs, chain, table, i + 1);
    }
  }

  lemma NextInChain(excs: map<U64, Links>, root: U64, chain: seq<U64>, table: Table, i: nat)
    requires IsChain(excs, root, chain) && HoldsChain(excs, chain, table) && i < |chain|
    ensures i + 1 in table
    ensures i < |chain| - 1 ==> NextOf(table, i + 1) == Some(i + 2)
    ensures NextOf(table, i + 1).Some? ==> 1 <= NextOf(table, i + 1).value <= |chain|
  {
    hide IsChain, HoldsChain;
    ChainLink(excs, root, chain, i);
    Held(excs, chain, table, i);
  }

  function UpTo(k: nat, n: nat): (s: seq<nat>)
    requires k <= n + 1
    ensures |s| == n + 1 - k && forall i :: 0 <= i < |s| ==> s[i] == k + i
  {
    seq(n + 1 - k, i requires 0 <= i < n + 1 - k => k + i)
  }

  lemma {:induction false} TrailOfChain(excs: map<U64, Links>, root: U64, chain: seq<U64>, table: Table, k: nat,
                                        seen: set<U64>, hops: nat)
    requires IsChain(excs, root, chain) && HoldsChain(excs, chain, table) && 1 <= k <= |chain| && k in table
    requires forall id :: id in seen <==> 1 <= id <= k
    ensures Trail(table, k, seen, hops) == UpTo(k, if |chain| < k + hops then |chain| else k + hops)
    decreases hops
  {
    hide NextOf, HoldsChain, IsChain;
    NextInChain(excs, root, chain, table, k - 1);
    if hops > 0 && k < |chain| {
      NextInChain(excs, root, chain, table, k);
      TrailOfChain(excs, root, chain, table, k + 1, seen + {k + 1}, hops - 1);
    }
  }

  /**
   * Whatever cycles and suppressed contexts the exceptions had, a reader that starts at stacktrace 1
   * visits 1, 2, 3 and so on in the order of capture, up to the cap.
   */
  lemma ChainReadBack(excs: map<U64, Links>, root: U64, chain: seq<U64>, table: Table)
    requires IsChain(excs, root, chain) && HoldsChain(excs, chain, table)
    ensures 1 in table
    ensures ChainFrom(table, 1) == UpTo(1, if |chain| <= MAX_CHAIN_DEPTH then |chain| else MAX_CHAIN_DEPTH + 1)
  {
    hide HoldsChain, IsChain, NextOf, Trail;
    assert |chain| > 0 by {
      Nonempty(excs, root, chain);
    }
    NextInChain(excs, root, chain, table, 0);
    TrailOfChain(excs, root, chain, table, 1, {1}, MAX_CHAIN_DEPTH);
  }

  lemma Nonempty(excs: map<U64, Links>, root: U64, chain: seq<U64>)
    requires IsChain(excs, root, chain)
    ensures |chain| > 0
  {
  }
}
