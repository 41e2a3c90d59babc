/**
 * The inverse of the walk: a possibly cyclic graph of Python objects, built depth first from heap
 * records, with a cache of what has been built that is filled before the recursion.
 */
module Rebuild {
  import opened Bytes
  import opened Format
  import opened Reading
  import opened Objects

  /** Python values: the singletons, or a node of the store. */
  datatype Value = NoneValue | BoolValue(value: bool) | Ref(node: nat)

  /** A built object: what its record says, and the objects in the places where the record has ids. */
  datatype Node = Node(rec: Rec, refs: seq<Value>, standIn: bool)

  /**
   * What has been built: nodes, for every heap offset the node that stands for it, for every exact tuple
   * that is complete the list that stood in for it until then, and the offsets in the order they were met.
   */
  datatype Built = Built(cache: map<U64, nat>, store: seq<Node>, standIns: map<U64, nat>, order: seq<U64>)

  predicate IsExactTuple(r: Rec) {
    r.Elems? && r.elems == TupleKind
  }

  function Singleton(offset: U64): Value
    requires IsMagicOffset(offset)
  {
    if offset == TRUE_OFFSET then BoolValue(true) else if offset == FALSE_OFFSET then BoolValue(false) else NoneValue
  }

  /** The object an id stands for. Ids outside the object map are None. */
  function ValueOf(m: map<U64, U64>, cache: map<U64, nat>, id: U64): Value {
    if id !in m then NoneValue
    else if IsMagicOffset(m[id]) then Singleton(m[id])
    else if m[id] in cache then Ref(cache[m[id]]) else NoneValue
  }

  function Values(m: map<U64, U64>, cache: map<U64, nat>, ids: seq<U64>): (vs: seq<Value>)
    ensures |vs| == |ids| && forall i :: 0 <= i < |ids| ==> vs[i] == ValueOf(m, cache, ids[i])
  {
    seq(|ids|, i requires 0 <= i < |ids| => ValueOf(m, cache, ids[i]))
  }

  // ------------------------------------------------------------------
  // Keys and names
  // ------------------------------------------------------------------

  /** What the object of a record does with one of its references. */
  datatype Place = ItemPlace | KeyPlace | NamePlace

  /** The keys of a subclass of dict, and the names of attributes. */
  function PlaceIn(r: Rec, i: nat): Place {
    match r
    case SerObject(_) => if i % 2 == 0 then NamePlace else ItemPlace
    case SerElems(_, ids, _) => if |ids| <= i && (i - |ids|) % 2 == 0 then NamePlace else ItemPlace
    case SerDict(pairs, _) => if i % 2 != 0 then ItemPlace else if i < 2 * |pairs| then KeyPlace else NamePlace
    case _ => ItemPlace
  }

  /** What is put there: the object, or the text it has then. */
  datatype Slot = Itself(value: Value) | TextOf(value: Value)

  predicate IsStrRec(r: Rec) {
    r.Text? && r.text == StringText
  }

  predicate IsNumberRec(r: Rec) {
    r.Int64? || r.Float? || (r.Text? && r.text == BignumText)
  }

  predicate IsStr(store: seq<Node>, v: Value) {
    v.Ref? && v.node < |store| && IsStrRec(store[v.node].rec)
  }

  predicate IsNumber(store: seq<Node>, v: Value) {
    v.BoolValue? || (v.Ref? && v.node < |store| && IsNumberRec(store[v.node].rec))
  }

  /** A key stays if it is a str, an int, a float or a bool, a name only if it is a str. */
  function SlotFor(store: seq<Node>, place: Place, v: Value): Slot {
    match place
    case ItemPlace => Itself(v)
    case KeyPlace => if IsStr(store, v) || IsNumber(store, v) then Itself(v) else TextOf(v)
    case NamePlace => if IsStr(store, v) then Itself(v) else TextOf(v)
  }

  predicate Stored(store: seq<Node>, v: Value) {
    v.Ref? ==> v.node < |store|
  }

  // ------------------------------------------------------------------
  // The written graph
  // ------------------------------------------------------------------

  /** A record refers to another through an id that the object map sends there. */
  ghost predicate Edge(heap: map<nat, Rec>, m: map<U64, U64>, a: U64, b: U64) {
    a in heap && exists c :: c in RecChildren(heap[a]) && c in m && m[c] == b && !IsMagicOffset(b)
  }

  ghost predicate Path(heap: map<nat, Rec>, m: map<U64, U64>, a: U64, b: U64, n: nat)
    decreases n
  {
    if n == 0 then a == b else exists x :: Path(heap, m, a, x, n - 1) && Edge(heap, m, x, b)
  }

  ghost predicate Reachable(heap: map<nat, Rec>, m: map<U64, U64>, a: U64, b: U64) {
    exists n: nat :: Path(heap, m, a, b, n)
  }

  lemma {:induction false} EdgeThenPath(heap: map<nat, Rec>, m: map<U64, U64>, a: U64, b: U64, c: U64, n: nat)
    requires Edge(heap, m, a, b) && Path(heap, m, b, c, n)
    ensures Path(heap, m, a, c, n + 1)
    decreases n
  {
    hide Edge;
    if n == 0 {
      assert Path(heap, m, a, a, 0);
    } else {
      var x :| Path(heap, m, b, x, n - 1) && Edge(heap, m, x, c);
      EdgeThenPath(heap, m, a, b, x, n - 1);
    }
  }

  lemma EdgeThenReachable(heap: map<nat, Rec>, m: map<U64, U64>, a: U64, b: U64, c: U64)
    requires Edge(heap, m, a, b) && Reachable(heap, m, b, c)
    ensures Reachable(heap, m, a, c)
  {
    hide Edge, Path;
    var n: nat :| Path(heap, m, b, c, n);
    EdgeThenPath(heap, m, a, b, c, n);
  }

  /** An exact tuple that refers to itself, however indirectly. */
  ghost predicate TupleOnCycle(heap: map<nat, Rec>, m: map<U64, U64>, t: U64) {
    t in heap && IsExactTuple(heap[t]) && exists u :: Reachable(heap, m, t, u) && Edge(heap, m, u, t)
  }

  /** None of the objects that can be reached is one. */
  ghost predicate NoTupleCycles(heap: map<nat, Rec>, m: map<U64, U64>, root: U64) {
    forall t :: Reachable(heap, m, root, t) ==> !TupleOnCycle(heap, m, t)
  }

  lemma ReachableThenEdge(heap: map<nat, Rec>, m: map<U64, U64>, a: U64, b: U64, c: U64)
    requires Reachable(heap, m, a, b) && Edge(heap, m, b, c)
    ensures Reachable(heap, m, a, c)
  {
    hide Edge;
    var n: nat :| Path(heap, m, a, b, n);
    assert Path(heap, m, a, c, n + 1);
  }

  lemma SelfReachable(heap: map<nat, Rec>, m: map<U64, U64>, a: U64)
    ensures Reachable(heap, m, a, a)
  {
    assert Path(heap, m, a, a, 0);
  }

  ghost predicate HasNode(m: map<U64, U64>, id: U64) {
    id in m && !IsMagicOffset(m[id])
  }

  ghost function Unbuilt(heap: map<nat, Rec>, cache: map<U64, nat>): nat {
    |set off: nat | off in heap && off !in cache|
  }

  lemma FewerUnbuilt(heap: map<nat, Rec>, cache: map<U64, nat>, cache': map<U64, nat>, off: U64)
    requires off in heap && off !in cache && off in cache' && forall x :: x in cache ==> x in cache'
    ensures Unbuilt(heap, cache') < Unbuilt(heap, cache)
  {
    var before, after := set x: nat | x in heap && x !in cache, set x: nat | x in heap && x !in cache';
    assert off in before && off !in after && after <= before;
    Subset(after, before - {off});
  }

  lemma {:induction false} Subset(a: set<nat>, b: set<nat>)
    requires a <= b
    ensures |a| <= |b|
    decreases a
  {
    if a != {} {
      var x :| x in a;
      Subset(a - {x}, b - {x});
    }
  }

  // ------------------------------------------------------------------
  // The order of the walk
  // ------------------------------------------------------------------

  ghost function Unmet(heap: map<nat, Rec>, order: seq<U64>): nat {
    |set off: nat | off in heap && off !in order|
  }

  lemma FewerUnmet(heap: map<nat, Rec>, order: seq<U64>, order': seq<U64>)
    requires forall x :: x in order ==> x in order'
    ensures Unmet(heap, order') <= Unmet(heap, order)
    ensures (exists x: U64 :: x in heap && x !in order && x in order') ==> Unmet(heap, order') < Unmet(heap, order)
  {
    var before, after := set x: nat | x in heap && x !in order, set x: nat | x in heap && x !in order';
    assert after <= before;
    Subset(after, before);
    if x: U64 :| x in heap && x !in order && x in order' {
      assert x in before && x !in after;
      Subset(after, before - {x});
    }
  }

  /** The offsets met so far, and then those met from an id on, depth first. */
  ghost function Meet(heap: map<nat, Rec>, m: map<U64, U64>, id: U64, order: seq<U64>): (r: seq<U64>)
    ensures order <= r
    decreases Unmet(heap, order), 0
  {
    if !HasNode(m, id) || m[id] in order || m[id] !in heap then order
    else
      FewerUnmet(heap, order, order + [m[id]]);
      MeetAll(heap, m, RecChildren(heap[m[id]]), order + [m[id]])
  }

  ghost function MeetAll(heap: map<nat, Rec>, m: map<U64, U64>, ids: seq<U64>, order: seq<U64>): (r: seq<U64>)
    ensures order <= r
    decreases Unmet(heap, order), |ids| + 1
  {
    if ids == [] then order
    else
      var before := MeetAll(heap, m, ids[..|ids| - 1], order);
      FewerUnmet(heap, order, before);
      Meet(heap, m, ids[|ids| - 1], before)
  }

  /** The offsets in the order in which rebuilding the object of an id meets them. */
  ghost function Preorder(heap: map<nat, Rec>, m: map<U64, U64>, id: U64): seq<U64> {
    Meet(heap, m, id, [])
  }

  /** When an offset was met. */
  function MetAt(order: seq<U64>, x: U64): (k: nat)
    ensures k <= |order| && (x in order ==> k < |order| && order[k] == x) && (x !in order ==> k == |order|)
  {
    if order == [] || order[0] == x then 0 else 1 + MetAt(order[1..], x)
  }

  predicate NotBefore(order: seq<U64>, t: U64, x: U64) {
    t in order && x in order && MetAt(order, t) <= MetAt(order, x)
  }

  lemma {:induction false} MetThen(order: seq<U64>, more: seq<U64>, x: U64)
    ensures MetAt(order + more, x) == if x in order then MetAt(order, x) else |order| + MetAt(more, x)
  {
    if order == [] {
      assert order + more == more;
    } else {
      assert (order + more)[1..] == order[1..] + more;
      MetThen(order[1..], more, x);
    }
  }

  /** What had been met stays in its place, and the rest comes behind. */
  lemma MetLater(order: seq<U64>, order': seq<U64>)
    requires order <= order'
    ensures forall t, x :: t in order && x in order ==> (NotBefore(order', t, x) <==> NotBefore(order, t, x))
    ensures forall t, x :: t in order && x in order' && x !in order ==>
      NotBefore(order', t, x) && !NotBefore(order', x, t)
  {
    var more := order'[|order|..];
    assert order' == order + more;
    forall x ensures MetAt(order', x) == if x in order then MetAt(order, x) else |order| + MetAt(more, x) {
      MetThen(order, more, x);
    }
  }

  /** A path of references from `t` to `x` that avoids what was met before `t`. */
  ghost predicate LaterPath(heap: map<nat, Rec>, m: map<U64, U64>, order: seq<U64>, t: U64, x: U64, n: nat)
    decreases n
  {
    if n == 0 then x == t && t in order
    else exists y :: LaterPath(heap, m, order, t, y, n - 1) && Edge(heap, m, y, x) && NotBefore(order, t, x)
  }

  ghost predicate LeadsOn(heap: map<nat, Rec>, m: map<U64, U64>, order: seq<U64>, t: U64, x: U64) {
    exists n: nat :: LaterPath(heap, m, order, t, x, n)
  }

  /** An exact tuple is met before the rest of one of its cycles. */
  ghost predicate TupleMetFirst(heap: map<nat, Rec>, m: map<U64, U64>, order: seq<U64>) {
    exists t: U64, x: U64 :: t in heap && IsExactTuple(heap[t]) && LeadsOn(heap, m, order, t, x) && Edge(heap, m, x, t)
  }

  lemma LeadsToItself(heap: map<nat, Rec>, m: map<U64, U64>, order: seq<U64>, t: U64)
    requires t in order
    ensures LeadsOn(heap, m, order, t, t)
  {
    assert LaterPath(heap, m, order, t, t, 0);
  }

  lemma {:induction false} LaterPathMet(heap: map<nat, Rec>, m: map<U64, U64>, order: seq<U64>, t: U64, x: U64, n: nat)
    requires LaterPath(heap, m, order, t, x, n)
    ensures NotBefore(order, t, x) && Reachable(heap, m, t, x)
    decreases n
  {
    hide Edge, Reachable;
    if n == 0 {
      SelfReachable(heap, m, t);
    } else {
      var y :| LaterPath(heap, m, order, t, y, n - 1) && Edge(heap, m, y, x) && NotBefore(order, t, x);
      LaterPathMet(heap, m, order, t, y, n - 1);
      ReachableThenEdge(heap, m, t, y, x);
    }
  }

  lemma LeadsMet(heap: map<nat, Rec>, m: map<U64, U64>, order: seq<U64>, t: U64, x: U64)
    requires LeadsOn(heap, m, order, t, x)
    ensures NotBefore(order, t, x) && Reachable(heap, m, t, x)
  {
    hide Reachable;
    var n: nat :| LaterPath(heap, m, order, t, x, n);
    LaterPathMet(heap, m, order, t, x, n);
  }

  lemma LeadsThenEdge(heap: map<nat, Rec>, m: map<U64, U64>, order: seq<U64>, t: U64, y: U64, x: U64)
    requires LeadsOn(heap, m, order, t, y) && Edge(heap, m, y, x) && NotBefore(order, t, x)
    ensures LeadsOn(heap, m, order, t, x)
  {
    hide Edge, NotBefore;
    var n: nat :| LaterPath(heap, m, order, t, y, n);
    assert LaterPath(heap, m, order, t, x, n + 1);
  }

  /** Meeting more takes no path away. */
  lemma {:induction false} PathStays(heap: map<nat, Rec>, m: map<U64, U64>, order: seq<U64>, order': seq<U64>, t: U64,
                                     x: U64, n: nat)
    requires order <= order' && LaterPath(heap, m, order, t, x, n)
    ensures LeadsOn(heap, m, order', t, x)
    decreases n
  {
    hide Edge, NotBefore, LeadsOn;
    LaterPathMet(heap, m, order, t, x, n);
    MetLater(order, order');
    assert t in order && x in order by {
      InOrder(order, t, x);
    }
    if n == 0 {
      LeadsToItself(heap, m, order', t);
    } else {
      var y :| LaterPath(heap, m, order, t, y, n - 1) && Edge(heap, m, y, x) && NotBefore(order, t, x);
      PathStays(heap, m, order, order', t, y, n - 1);
      LeadsThenEdge(heap, m, order', t, y, x);
    }
  }

  lemma InOrder(order: seq<U64>, t: U64, x: U64)
    requires NotBefore(order, t, x)
    ensures t in order && x in order
  {
  }

  lemma LeadsStill(heap: map<nat, Rec>, m: map<U64, U64>, order: seq<U64>, order': seq<U64>, t: U64, x: U64)
    requires order <= order' && LeadsOn(heap, m, order, t, x)
    ensures LeadsOn(heap, m, order', t, x)
  {
    hide LaterPath;
    var n: nat :| LaterPath(heap, m, order, t, x, n);
    PathStays(heap, m, order, order', t, x, n);
  }

  /** One path behind another. */
  lemma {:induction false} LeadsFurther(heap: map<nat, Rec>, m: map<U64, U64>, order: seq<U64>, t: U64, y: U64, x: U64,
                                        n: nat)
    requires LeadsOn(heap, m, order, t, y) && LaterPath(heap, m, order, y, x, n)
    ensures LeadsOn(heap, m, order, t, x)
    decreases n
  {
    hide Edge, LeadsOn, NotBefore;
    if n > 0 {
      var z :| LaterPath(heap, m, order, y, z, n - 1) && Edge(heap, m, z, x) && NotBefore(order, y, x);
      LeadsFurther(heap, m, order, t, y, z, n - 1);
      LeadsMet(heap, m, order, t, y);
      NotBeforeEither(order, t, y, x);
      LeadsThenEdge(heap, m, order, t, z, x);
    }
  }

  lemma NotBeforeEither(order: seq<U64>, t: U64, y: U64, x: U64)
    requires NotBefore(order, t, y) && NotBefore(order, y, x)
    ensures NotBefore(order, t, x)
  {
  }

  // ------------------------------------------------------------------
  // The built graph
  // ------------------------------------------------------------------

  /** The references of a record have nodes. */
  ghost predicate ChildrenBuilt(heap: map<nat, Rec>, m: map<U64, U64>, cache: map<U64, nat>, ids: seq<U64>) {
    forall c :: c in ids && c in m && !IsMagicOffset(m[c]) ==> m[c] in cache
  }

  /** The node of an offset is its record, with the nodes of its references in place. */
  ghost predicate Complete(heap: map<nat, Rec>, m: map<U64, U64>, b: Built, off: U64) {
    && off in b.cache && off in heap && b.cache[off] < |b.store|
    && b.store[b.cache[off]] == Node(heap[off], Values(m, b.cache, RecChildren(heap[off])), false)
    && ChildrenBuilt(heap, m, b.cache, RecChildren(heap[off]))
  }

  /**
   * The object at `x` sees the list that stood in for the tuple at `t`: it was met from there while the tuple
   * was open.
   */
  ghost predicate SeesStandIn(heap: map<nat, Rec>, m: map<U64, U64>, b: Built, t: U64, x: U64) {
    t in b.standIns && LeadsOn(heap, m, b.order, t, x)
  }

  /** What the object at `x` has in the place of an id: the object itself, or a stand-in. */
  ghost function RefOf(heap: map<nat, Rec>, m: map<U64, U64>, b: Built, x: U64, c: U64): Value {
    if HasNode(m, c) && SeesStandIn(heap, m, b, m[c], x) then Ref(b.standIns[m[c]]) else ValueOf(m, b.cache, c)
  }

  /** The node of an offset, exactly. */
  ghost predicate Filled(heap: map<nat, Rec>, m: map<U64, U64>, b: Built, off: U64) {
    && off in b.cache && off in heap && b.cache[off] < |b.store|
    && ChildrenBuilt(heap, m, b.cache, RecChildren(heap[off]))
    && var n := b.store[b.cache[off]];
       && n.rec == heap[off] && !n.standIn && |n.refs| == |RecChildren(heap[off])|
       && forall i :: 0 <= i < |n.refs| ==> n.refs[i] == RefOf(heap, m, b, off, RecChildren(heap[off])[i])
  }

  /** One node per offset that was met, and a stand-in for every exact tuple that is closed. */
  ghost predicate TablesFit(heap: map<nat, Rec>, b: Built, open: set<U64>) {
    && (forall off :: off in b.cache ==> off in heap && b.cache[off] < |b.store|)
    && (forall x, y :: x in b.cache && y in b.cache && b.cache[x] == b.cache[y] ==> x == y)
    && (forall off :: off in b.cache <==> off in b.order)
    && open <= b.cache.Keys
    && (forall t :: t in b.standIns <==> t in b.cache && t !in open && IsExactTuple(heap[t]))
    && (forall t :: t in b.standIns ==> b.standIns[t] != b.cache[t])
  }

  /** The tables fit, those that can be met from a closed tuple are closed, and every closed node is filled. */
  ghost predicate Coherent(heap: map<nat, Rec>, m: map<U64, U64>, b: Built, open: set<U64>) {
    && TablesFit(heap, b, open)
    && (forall t, x :: SeesStandIn(heap, m, b, t, x) ==> x !in open)
    && (forall off :: off in b.cache && off !in open ==> Filled(heap, m, b, off))
  }

  /** Building leaves what was there alone, and builds what can be met from here on. */
  ghost predicate Extends(heap: map<nat, Rec>, m: map<U64, U64>, b: Built, b': Built, from: U64) {
    && (forall off :: off in b.cache ==> off in b'.cache && b'.cache[off] == b.cache[off])
    && (forall t :: t in b.standIns ==> t in b'.standIns && b'.standIns[t] == b.standIns[t])
    && (forall t :: t in b'.standIns && t !in b.standIns ==> t !in b.cache)
    && |b.store| <= |b'.store| && (forall r :: 0 <= r < |b.store| ==> b'.store[r] == b.store[r])
    && b.order <= b'.order
    && (forall off :: off in b'.cache && off !in b.cache ==> from !in b.cache && LeadsOn(heap, m, b'.order, from, off))
  }

  /** Where a closed tuple leads is settled: nothing met later is on any of its paths. */
  lemma {:induction false} NothingNew(heap: map<nat, Rec>, m: map<U64, U64>, b: Built, open: set<U64>, order': seq<U64>,
                                      t: U64, x: U64, n: nat)
    requires Coherent(heap, m, b, open) && b.order <= order' && t in b.standIns && LaterPath(heap, m, order', t, x, n)
    ensures LeadsOn(heap, m, b.order, t, x)
    decreases n
  {
    hide Edge, RecChildren, LeadsOn, Filled;
    if n == 0 {
      LeadsToItself(heap, m, b.order, t);
    } else {
      var y :| LaterPath(heap, m, order', t, y, n - 1) && Edge(heap, m, y, x) && NotBefore(order', t, x);
      NothingNew(heap, m, b, open, order', t, y, n - 1);
      LeadsMet(heap, m, b.order, t, y);
      assert SeesStandIn(heap, m, b, t, y) && y in b.cache && Filled(heap, m, b, y);
      EdgeBuilt(heap, m, b, y, x);
      MetLater(b.order, order');
      LeadsThenEdge(heap, m, b.order, t, y, x);
    }
  }

  lemma EdgeBuilt(heap: map<nat, Rec>, m: map<U64, U64>, b: Built, x: U64, c: U64)
    requires Filled(heap, m, b, x) && Edge(heap, m, x, c)
    ensures c in b.cache
  {
    hide RecChildren, RefOf;
  }

  lemma SettledLeads(heap: map<nat, Rec>, m: map<U64, U64>, b: Built, open: set<U64>, order': seq<U64>, t: U64, x: U64)
    requires Coherent(heap, m, b, open) && b.order <= order' && t in b.standIns
    ensures LeadsOn(heap, m, order', t, x) <==> LeadsOn(heap, m, b.order, t, x)
  {
    hide LaterPath, Coherent;
    if LeadsOn(heap, m, order', t, x) {
      var n: nat :| LaterPath(heap, m, order', t, x, n);
      NothingNew(heap, m, b, open, order', t, x, n);
    } else if LeadsOn(heap, m, b.order, t, x) {
      LeadsStill(heap, m, b.order, order', t, x);
    }
  }

  /** A filled node stays filled while the cache grows and its node is left alone. */
  lemma StaysFilled(heap: map<nat, Rec>, m: map<U64, U64>, b: Built, open: set<U64>, b': Built, x: U64)
    requires Coherent(heap, m, b, open) && x in b.cache && x !in open
    requires forall off :: off in b.cache ==> off in b'.cache && b'.cache[off] == b.cache[off]
    requires forall t :: t in b.standIns ==> t in b'.standIns && b'.standIns[t] == b.standIns[t]
    requires forall t :: t in b'.standIns && t !in b.standIns ==> t !in b.cache
    requires b.order <= b'.order
    requires b.cache[x] < |b'.store| && b'.store[b.cache[x]] == b.store[b.cache[x]]
    ensures Filled(heap, m, b', x)
  {
    hide RecChildren, LeadsOn;
    assert Filled(heap, m, b, x);
    var ids := RecChildren(heap[x]);
    forall i | 0 <= i < |ids| ensures RefOf(heap, m, b', x, ids[i]) == RefOf(heap, m, b, x, ids[i]) {
      assert ids[i] in ids;
      if HasNode(m, ids[i]) && m[ids[i]] in b.standIns {
        SettledLeads(heap, m, b, open, b'.order, m[ids[i]], x);
      }
    }
  }

  /** Nothing is added to what closed tuples see while others are opened and filled. */
  lemma StillSettled(heap: map<nat, Rec>, m: map<U64, U64>, b: Built, open: set<U64>, b': Built, t: U64, x: U64)
    requires Coherent(heap, m, b, open) && b.order <= b'.order && t in b.standIns
    requires LeadsOn(heap, m, b'.order, t, x)
    ensures x in b.cache && x !in open
  {
    hide LeadsOn, Filled;
    SettledLeads(heap, m, b, open, b'.order, t, x);
    assert SeesStandIn(heap, m, b, t, x);
    LeadsMet(heap, m, b.order, t, x);
  }

  // ------------------------------------------------------------------
  // Filling a node
  // ------------------------------------------------------------------

  /** Node `r` is the record of `off` with its first `i` references. */
  ghost predicate FirstRefs(heap: map<nat, Rec>, m: map<U64, U64>, b: Built, r: nat, off: U64, i: nat) {
    && off in heap && r < |b.store| && i <= |RecChildren(heap[off])|
    && b.store[r] == Node(heap[off], Values(m, b.cache, RecChildren(heap[off])[..i]), IsExactTuple(heap[off]))
    && ChildrenBuilt(heap, m, b.cache, RecChildren(heap[off])[..i])
  }

  /** The node of `off`, which is the next after those of `b0`, has its first `i` references. */
  ghost predicate Filling(heap: map<nat, Rec>, m: map<U64, U64>, b0: Built, b: Built, open: set<U64>, off: U64, i: nat)
  {
    && off in heap && off !in b0.cache && Coherent(heap, m, b0, open)
    && Extends(heap, m, b0, b, off) && Coherent(heap, m, b, open + {off})
    && |b0.store| < |b.store| && off in b.cache && b.cache[off] == |b0.store|
    && b0.order + [off] <= b.order
    && FirstRefs(heap, m, b, |b0.store|, off, i)
  }

  function Opened(b: Built, off: U64, rec: Rec): Built {
    b.(cache := b.cache[off := |b.store|], store := b.store + [Node(rec, [], IsExactTuple(rec))],
       order := b.order + [off])
  }

  lemma FillStarts(heap: map<nat, Rec>, m: map<U64, U64>, b: Built, open: set<U64>, off: U64)
    requires Coherent(heap, m, b, open) && off in heap && off !in b.cache
    ensures Filling(heap, m, b, Opened(b, off, heap[off]), open, off, 0)
  {
    hide RecChildren, Coherent, Extends, FirstRefs;
    OpenedExtends(heap, m, b, open, off);
    OpenedCoherent(heap, m, b, open, off);
    NoRefsYet(heap, m, b, off);
  }

  lemma OpenedExtends(heap: map<nat, Rec>, m: map<U64, U64>, b: Built, open: set<U64>, off: U64)
    requires Coherent(heap, m, b, open) && off in heap && off !in b.cache
    ensures Extends(heap, m, b, Opened(b, off, heap[off]), off)
  {
    hide RecChildren, LeadsOn, Coherent, TablesFit;
    LeadsToItself(heap, m, Opened(b, off, heap[off]).order, off);
    OpenedTables(heap, m, b, open, off);
  }

  lemma NoRefsYet(heap: map<nat, Rec>, m: map<U64, U64>, b: Built, off: U64)
    requires off in heap
    ensures FirstRefs(heap, m, Opened(b, off, heap[off]), |b.store|, off, 0)
  {
    hide RecChildren;
    assert Values(m, Opened(b, off, heap[off]).cache, RecChildren(heap[off])[..0]) == [];
  }

  lemma OpenedTables(heap: map<nat, Rec>, m: map<U64, U64>, b: Built, open: set<U64>, off: U64)
    requires Coherent(heap, m, b, open) && off in heap && off !in b.cache
    ensures off !in b.standIns && TablesFit(heap, Opened(b, off, heap[off]), open + {off})
  {
    hide RecChildren, Filled, LeadsOn, SeesStandIn;
  }

  lemma OpenedCoherent(heap: map<nat, Rec>, m: map<U64, U64>, b: Built, open: set<U64>, off: U64)
    requires Coherent(heap, m, b, open) && off in heap && off !in b.cache
    ensures Coherent(heap, m, Opened(b, off, heap[off]), open + {off})
  {
    hide RecChildren, Filled, LeadsOn, TablesFit;
    var b' := Opened(b, off, heap[off]);
    OpenedTables(heap, m, b, open, off);
    forall x | x in b'.cache && x !in open + {off} ensures Filled(heap, m, b', x) {
      InStore(heap, b, open, x);
      StaysFilled(heap, m, b, open, b', x);
    }
    forall t, x | SeesStandIn(heap, m, b', t, x) ensures x !in open + {off} {
      StillSettled(heap, m, b, open, b', t, x);
    }
  }

  lemma InStore(heap: map<nat, Rec>, b: Built, open: set<U64>, x: U64)
    requires TablesFit(heap, b, open) && x in b.cache
    ensures x in heap && b.cache[x] < |b.store|
  {
  }

  lemma SameValues(m: map<U64, U64>, cache: map<U64, nat>, cache': map<U64, nat>, ids: seq<U64>, heap: map<nat, Rec>)
    requires ChildrenBuilt(heap, m, cache, ids)
    requires forall off :: off in cache ==> off in cache' && cache'[off] == cache[off]
    ensures Values(m, cache', ids) == Values(m, cache, ids) && ChildrenBuilt(heap, m, cache', ids)
  {
    forall i | 0 <= i < |ids| ensures Values(m, cache', ids)[i] == Values(m, cache, ids)[i] {
      assert ids[i] in ids;
    }
  }

  function Appended(b: Built, r: nat, v: Value): Built
    requires r < |b.store|
  {
    b.(store := b.store[r := b.store[r].(refs := b.store[r].refs + [v])])
  }

  lemma AppendCoherent(heap: map<nat, Rec>, m: map<U64, U64>, b: Built, open: set<U64>, off: U64, v: Value)
    requires Coherent(heap, m, b, open) && off in b.cache && off in open
    ensures Coherent(heap, m, Appended(b, b.cache[off], v), open)
  {
    hide RecChildren, ChildrenBuilt, Filled, LeadsOn;
    var b' := Appended(b, b.cache[off], v);
    forall x | x in b'.cache && x !in open ensures Filled(heap, m, b', x) {
      StaysFilled(heap, m, b, open, b', x);
    }
    assert forall t, x :: SeesStandIn(heap, m, b', t, x) ==> SeesStandIn(heap, m, b, t, x);
  }

  lemma AppendExtends(heap: map<nat, Rec>, m: map<U64, U64>, b0: Built, b: Built, b1: Built, off: U64, c: U64, v: Value)
    requires Extends(heap, m, b0, b, off) && |b0.store| < |b.store| && off !in b0.cache
    requires off in b.order && (forall x :: x in b.cache <==> x in b.order)
    requires forall x :: x in b1.cache <==> x in b1.order
    requires if HasNode(m, c) then Edge(heap, m, off, m[c]) && Extends(heap, m, b, b1, m[c]) else b1 == b
    ensures |b0.store| < |b1.store| && Extends(heap, m, b0, Appended(b1, |b0.store|, v), off)
  {
    hide Edge, LeadsOn;
    assert b0.order <= b1.order;
    forall x | x in b1.cache && x !in b0.cache ensures LeadsOn(heap, m, b1.order, off, x) {
      if x in b.cache {
        LeadsStill(heap, m, b.order, b1.order, off, x);
      } else {
        MetFromChild(heap, m, b.order, b1.order, off, m[c], x);
      }
    }
  }

  /** What is met from a child is met from its parent. */
  lemma MetFromChild(heap: map<nat, Rec>, m: map<U64, U64>, order: seq<U64>, order': seq<U64>, off: U64, c: U64, x: U64)
    requires order <= order' && off in order && c !in order && Edge(heap, m, off, c) && LeadsOn(heap, m, order', c, x)
    ensures LeadsOn(heap, m, order', off, x)
  {
    hide Edge, LaterPath;
    MetLater(order, order');
    LeadsMet(heap, m, order', c, x);
    var n: nat :| LaterPath(heap, m, order', c, x, n);
    LeadsToItself(heap, m, order', off);
    LeadsThenEdge(heap, m, order', off, off, c);
    LeadsFurther(heap, m, order', off, c, x, n);
  }

  lemma OneMoreValue(heap: map<nat, Rec>, m: map<U64, U64>, cache: map<U64, nat>, cache': map<U64, nat>, ids: seq<U64>,
                     i: nat)
    requires i < |ids| && ChildrenBuilt(heap, m, cache, ids[..i]) && (HasNode(m, ids[i]) ==> m[ids[i]] in cache')
    requires forall off :: off in cache ==> off in cache' && cache'[off] == cache[off]
    ensures Values(m, cache', ids[..i + 1]) == Values(m, cache, ids[..i]) + [ValueOf(m, cache', ids[i])]
    ensures ChildrenBuilt(heap, m, cache', ids[..i + 1])
  {
    hide ValueOf;
    SameValues(m, cache, cache', ids[..i], heap);
    assert ids[..i + 1] == ids[..i] + [ids[i]];
    assert Values(m, cache', ids[..i + 1]) == Values(m, cache', ids[..i]) + [ValueOf(m, cache', ids[i])];
  }

  lemma FillStep(heap: map<nat, Rec>, m: map<U64, U64>, b0: Built, b: Built, b1: Built, open: set<U64>, off: U64,
                 i: nat, v: Value)
    requires Filling(heap, m, b0, b, open, off, i) && i < |RecChildren(heap[off])|
    requires Coherent(heap, m, b1, open + {off})
    requires
      var c := RecChildren(heap[off])[i];
      && (if HasNode(m, c) then m[c] in b1.cache && Extends(heap, m, b, b1, m[c]) else b1 == b)
      && v == ValueOf(m, b1.cache, c)
    ensures |b0.store| < |b1.store| && Filling(heap, m, b0, Appended(b1, |b0.store|, v), open, off, i + 1)
  {
    hide RecChildren, ValueOf, Edge, Extends, FirstRefs, Coherent;
    var c := RecChildren(heap[off])[i];
    if HasNode(m, c) {
      EdgeSo(heap, m, off, i);
      ExtendedSo(heap, m, b, b1, m[c], off);
    }
    AllInOrder(heap, m, b, open + {off});
    AllInOrder(heap, m, b1, open + {off});
    AppendExtends(heap, m, b0, b, b1, off, c, v);
    AppendCoherent(heap, m, b1, open + {off}, off, v);
    OneMoreRef(heap, m, b, b1, |b0.store|, off, i, v);
  }

  lemma AllInOrder(heap: map<nat, Rec>, m: map<U64, U64>, b: Built, open: set<U64>)
    requires Coherent(heap, m, b, open)
    ensures forall x :: x in b.cache <==> x in b.order
  {
    hide SeesStandIn, Filled;
  }

  lemma OneMoreRef(heap: map<nat, Rec>, m: map<U64, U64>, b: Built, b1: Built, r: nat, off: U64, i: nat, v: Value)
    requires FirstRefs(heap, m, b, r, off, i) && i < |RecChildren(heap[off])|
    requires r < |b1.store| && b1.store[r] == b.store[r]
    requires forall x :: x in b.cache ==> x in b1.cache && b1.cache[x] == b.cache[x]
    requires v == ValueOf(m, b1.cache, RecChildren(heap[off])[i])
    requires HasNode(m, RecChildren(heap[off])[i]) ==> m[RecChildren(heap[off])[i]] in b1.cache
    ensures FirstRefs(heap, m, Appended(b1, r, v), r, off, i + 1)
  {
    hide RecChildren, ChildrenBuilt, ValueOf;
    OneMoreValue(heap, m, b.cache, b1.cache, RecChildren(heap[off]), i);
  }

  lemma ExtendedSo(heap: map<nat, Rec>, m: map<U64, U64>, b: Built, b': Built, from: U64, off: U64)
    requires Extends(heap, m, b, b', from) && off in b.cache && b.cache[off] < |b.store|
    ensures off in b'.cache && b'.cache[off] == b.cache[off] && |b.store| <= |b'.store|
    ensures b'.store[b.cache[off]] == b.store[b.cache[off]] && b.order <= b'.order
    ensures forall x :: x in b.cache ==> x in b'.cache && b'.cache[x] == b.cache[x]
  {
    hide LeadsOn;
  }

  lemma EdgeSo(heap: map<nat, Rec>, m: map<U64, U64>, off: U64, i: nat)
    requires off in heap && i < |RecChildren(heap[off])| && HasNode(m, RecChildren(heap[off])[i])
    ensures Edge(heap, m, off, m[RecChildren(heap[off])[i]])
  {
  }

  /** While a node is open nothing closed leads to it, so what it has for its references are the objects themselves. */
  lemma OpenSeesObjects(heap: map<nat, Rec>, m: map<U64, U64>, b: Built, open: set<U64>, off: U64, c: U64)
    requires Coherent(heap, m, b, open) && off in open
    ensures RefOf(heap, m, b, off, c) == ValueOf(m, b.cache, c)
  {
    hide LeadsOn, Filled;
  }

  /** Everything but an exact tuple is complete in place. */
  lemma FillEnds(heap: map<nat, Rec>, m: map<U64, U64>, b0: Built, b: Built, open: set<U64>, off: U64)
    requires off in heap && Filling(heap, m, b0, b, open, off, |RecChildren(heap[off])|) && !IsExactTuple(heap[off])
    ensures Coherent(heap, m, b, open) && Extends(heap, m, b0, b, off) && off in b.cache
  {
    hide RecChildren, LeadsOn, SeesStandIn, Filled;
    assert Filled(heap, m, b, off) by {
      OpenIsFilled(heap, m, b0, b, open, off);
    }
    forall x | x in b.cache && x !in open ensures Filled(heap, m, b, x) {
      if x != off {
        assert x !in open + {off};
      }
    }
  }

  lemma OpenIsFilled(heap: map<nat, Rec>, m: map<U64, U64>, b0: Built, b: Built, open: set<U64>, off: U64)
    requires off in heap && Filling(heap, m, b0, b, open, off, |RecChildren(heap[off])|) && !IsExactTuple(heap[off])
    ensures Filled(heap, m, b, off)
  {
    hide RecChildren, LeadsOn, Coherent, RefOf, Extends;
    var ids := RecChildren(heap[off]);
    assert ids[..|ids|] == ids;
    forall i | 0 <= i < |ids| ensures RefOf(heap, m, b, off, ids[i]) == ValueOf(m, b.cache, ids[i]) {
      OpenSeesObjects(heap, m, b, open + {off}, off, ids[i]);
    }
  }

  function Converted(b: Built, off: U64, r: nat): Built
    requires r < |b.store|
  {
    b.(cache := b.cache[off := |b.store|], store := b.store + [b.store[r].(standIn := false)],
       standIns := b.standIns[off := r])
  }

  /** An exact tuple replaces the list that stood in for it in the cache, but not in what refers to that list. */
  lemma TupleEnds(heap: map<nat, Rec>, m: map<U64, U64>, b0: Built, b: Built, open: set<U64>, off: U64)
    requires off in heap && Filling(heap, m, b0, b, open, off, |RecChildren(heap[off])|) && IsExactTuple(heap[off])
    requires off !in open
    ensures
      var b' := Converted(b, off, |b0.store|);
      Coherent(heap, m, b', open) && Extends(heap, m, b0, b', off) && off in b'.cache
  {
    hide RecChildren, LeadsOn, Filled, SeesStandIn, Filling, Extends, ChildrenBuilt, TablesFit;
    FillingSo(heap, m, b0, b, open, off, |RecChildren(heap[off])|);
    var b' := Converted(b, off, |b0.store|);
    ConvertedTables(heap, m, b0, b, open, off);
    ConvertedExtends(heap, m, b0, b, open, off);
    forall x | x in b'.cache && x !in open ensures Filled(heap, m, b', x) {
      if x == off {
        TupleFilled(heap, m, b0, b, open, off);
      } else {
        ConvertedFilled(heap, m, b0, b, open, off, x);
      }
    }
    forall t, x | SeesStandIn(heap, m, b', t, x) ensures x !in open {
      ConvertedSettled(heap, m, b0, b, open, off, t, x);
    }
  }

  lemma ConvertedTables(heap: map<nat, Rec>, m: map<U64, U64>, b0: Built, b: Built, open: set<U64>, off: U64)
    requires off in heap && Filling(heap, m, b0, b, open, off, |RecChildren(heap[off])|) && IsExactTuple(heap[off])
    requires off !in open
    ensures TablesFit(heap, Converted(b, off, |b0.store|), open)
  {
    hide RecChildren, LeadsOn, Filled, ChildrenBuilt, SeesStandIn, Extends, Filling;
    FillingSo(heap, m, b0, b, open, off, |RecChildren(heap[off])|);
  }

  lemma ConvertedExtends(heap: map<nat, Rec>, m: map<U64, U64>, b0: Built, b: Built, open: set<U64>, off: U64)
    requires off in heap && Filling(heap, m, b0, b, open, off, |RecChildren(heap[off])|)
    ensures Extends(heap, m, b0, Converted(b, off, |b0.store|), off)
  {
    hide RecChildren, LeadsOn, Filled, ChildrenBuilt, SeesStandIn;
  }

  /** The tuple was met before everything that was opened since, and all of that is closed. */
  lemma ConvertedSettled(heap: map<nat, Rec>, m: map<U64, U64>, b0: Built, b: Built, open: set<U64>, off: U64, t: U64,
                         x: U64)
    requires off in heap && Filling(heap, m, b0, b, open, off, |RecChildren(heap[off])|) && off !in open
    requires SeesStandIn(heap, m, Converted(b, off, |b0.store|), t, x)
    ensures x !in open
  {
    hide RecChildren, LeadsOn, Filled, ChildrenBuilt, Extends;
    LeadsMet(heap, m, b.order, t, x);
    if t == off {
      MetLater(b0.order, b.order);
      assert off in b.order && off !in b0.order;
      assert x in b0.order ==> !NotBefore(b.order, off, x);
    } else {
      assert SeesStandIn(heap, m, b, t, x);
    }
  }

  /** Whatever was built while the tuple was open refers to its stand-in, and always will. */
  lemma ConvertedFilled(heap: map<nat, Rec>, m: map<U64, U64>, b0: Built, b: Built, open: set<U64>, off: U64, x: U64)
    requires off in heap && Filling(heap, m, b0, b, open, off, |RecChildren(heap[off])|) && x in b.cache && x !in open
    requires x != off
    ensures Filled(heap, m, Converted(b, off, |b0.store|), x)
  {
    hide RecChildren, LeadsOn, RefOf, Filling, TablesFit, SeesStandIn;
    FillingSo(heap, m, b0, b, open, off, |RecChildren(heap[off])|);
    OpenHasNone(heap, m, b, open + {off}, off);
    assert x !in open + {off} && Filled(heap, m, b, x);
    var b', ids := Converted(b, off, |b0.store|), RecChildren(heap[x]);
    forall i | 0 <= i < |ids| ensures RefOf(heap, m, b', x, ids[i]) == RefOf(heap, m, b, x, ids[i]) {
      assert ids[i] in ids;
      if HasNode(m, ids[i]) && m[ids[i]] == off {
        RefersToOpen(heap, m, b0, b, open, off, x, i);
      }
      ConvertedRef(heap, m, b, off, |b0.store|, x, ids[i]);
    }
  }

  lemma OpenHasNone(heap: map<nat, Rec>, m: map<U64, U64>, b: Built, open: set<U64>, off: U64)
    requires Coherent(heap, m, b, open) && off in open
    ensures off !in b.standIns
  {
    hide LeadsOn, Filled, SeesStandIn;
  }

  lemma ConvertedRef(heap: map<nat, Rec>, m: map<U64, U64>, b: Built, off: U64, r: nat, x: U64, c: U64)
    requires r < |b.store| && off in b.cache && b.cache[off] == r && off !in b.standIns
    requires HasNode(m, c) ==> m[c] in b.cache && (m[c] == off ==> LeadsOn(heap, m, b.order, off, x))
    ensures RefOf(heap, m, Converted(b, off, r), x, c) == RefOf(heap, m, b, x, c)
  {
    hide LeadsOn;
  }

  /** Only what was met since refers to an open node. */
  lemma RefersToOpen(heap: map<nat, Rec>, m: map<U64, U64>, b0: Built, b: Built, open: set<U64>, off: U64, x: U64,
                     i: nat)
    requires off in heap && Filling(heap, m, b0, b, open, off, |RecChildren(heap[off])|) && x in b.cache && x !in open
    requires x in heap
    requires i < |RecChildren(heap[x])| && HasNode(m, RecChildren(heap[x])[i]) && m[RecChildren(heap[x])[i]] == off
    ensures LeadsOn(heap, m, b.order, off, x)
  {
    hide RecChildren, LeadsOn, SeesStandIn, RefOf;
    ChildIn(heap, m, b0, open, x, i);
  }

  lemma ChildIn(heap: map<nat, Rec>, m: map<U64, U64>, b: Built, open: set<U64>, x: U64, i: nat)
    requires Coherent(heap, m, b, open) && x !in open && x in heap && i < |RecChildren(heap[x])|
    requires HasNode(m, RecChildren(heap[x])[i])
    ensures x in b.cache ==> m[RecChildren(heap[x])[i]] in b.cache
  {
    hide RecChildren, LeadsOn, SeesStandIn, RefOf;
    if x in b.cache {
      assert Filled(heap, m, b, x) && RecChildren(heap[x])[i] in RecChildren(heap[x]);
    }
  }

  lemma TupleFilled(heap: map<nat, Rec>, m: map<U64, U64>, b0: Built, b: Built, open: set<U64>, off: U64)
    requires off in heap && Filling(heap, m, b0, b, open, off, |RecChildren(heap[off])|)
    ensures Filled(heap, m, Converted(b, off, |b0.store|), off)
  {
    hide RecChildren, LeadsOn, Coherent, Extends;
    var b', ids := Converted(b, off, |b0.store|), RecChildren(heap[off]);
    assert ids[..|ids|] == ids;
    OrderHas(heap, m, b, open + {off}, off);
    LeadsToItself(heap, m, b.order, off);
    forall i | 0 <= i < |ids| ensures RefOf(heap, m, b', off, ids[i]) == ValueOf(m, b.cache, ids[i]) {
      assert ids[i] in ids;
      OpenSeesObjects(heap, m, b, open + {off}, off, ids[i]);
      if HasNode(m, ids[i]) && m[ids[i]] != off && m[ids[i]] in b.standIns {
        NotSeenWhileOpen(heap, m, b, open + {off}, off, m[ids[i]]);
      }
    }
  }

  lemma OrderHas(heap: map<nat, Rec>, m: map<U64, U64>, b: Built, open: set<U64>, off: U64)
    requires Coherent(heap, m, b, open) && off in b.cache
    ensures off in b.order
  {
    hide LeadsOn, Filled;
  }

  lemma NotSeenWhileOpen(heap: map<nat, Rec>, m: map<U64, U64>, b: Built, open: set<U64>, off: U64, t: U64)
    requires Coherent(heap, m, b, open) && off in open && t in b.standIns
    ensures !LeadsOn(heap, m, b.order, t, off)
  {
    hide LeadsOn, Filled;
    assert SeesStandIn(heap, m, b, t, off) ==> off !in open;
  }

  // ------------------------------------------------------------------
  // The reader's object cache
  // ------------------------------------------------------------------

  /** The image holds these heap records. */
  ghost predicate HeapIn(img: seq<Byte>, heapPos: U64, heap: map<nat, Rec>) {
    && |img| <= MAX_FILE_SIZE && At(img, HEAP_POS_AT, U64Bytes(heapPos))
    && forall off :: off in heap ==> off < NONE_OFFSET && At(img, heapPos + off, EncRec(heap[off]))
  }

  /** Every offset of the object map is magic or starts a record. */
  ghost predicate MapGood(heap: map<nat, Rec>, m: map<U64, U64>) {
    forall id :: id in m ==> IsMagicOffset(m[id]) || m[id] in heap
  }

  /** The places of a node have what the reader puts there. */
  ghost predicate SlotsRight(store: seq<Node>, node: Node, slots: seq<Slot>) {
    && |slots| == |node.refs|
    && forall i :: 0 <= i < |slots| ==>
         Stored(store, node.refs[i]) && slots[i] == SlotFor(store, PlaceIn(node.rec, i), node.refs[i])
  }

  /** What is there is not looked at again: the kind of an object never changes. */
  lemma SlotsStayRight(store: seq<Node>, store': seq<Node>, node: Node, slots: seq<Slot>)
    requires SlotsRight(store, node, slots) && |store| <= |store'|
    requires forall n :: 0 <= n < |store| ==> store'[n].rec == store[n].rec
    ensures SlotsRight(store', node, slots)
  {
    hide PlaceIn;
  }

  /**
   * Objects that have been built. `store` has the references as they were followed, `slots` what was
   * put in their places.
   */
  class ObjectCache {
    var cache: map<U64, nat>
    var store: seq<Node>
    var slots: seq<seq<Slot>>
    ghost var standIns: map<U64, nat>
    ghost var order: seq<U64>

    ghost function B(): Built
      reads this
    {
      Built(cache, store, standIns, order)
    }

    ghost predicate Placed()
      reads this
    {
      |slots| == |store| && forall n :: 0 <= n < |store| ==> SlotsRight(store, store[n], slots[n])
    }

    constructor ()
      ensures B() == Built(map[], [], map[], []) && Placed()
    {
      cache, store, slots, standIns, order := map[], [], [], map[], [];
    }

    /** The object of an id: from the cache if it has been built, or is being built, and else from its record. */
    method GetPythonObject(img: seq<Byte>, id: U64, objectMap: map<U64, U64>, ghost heapPos: U64,
                           ghost heap: map<nat, Rec>, ghost open: set<U64>)
      returns (v: Value)
      requires HeapIn(img, heapPos, heap) && MapGood(heap, objectMap)
      requires Coherent(heap, objectMap, B(), open) && Placed()
      modifies this
      ensures Coherent(heap, objectMap, B(), open) && Placed()
      ensures if HasNode(objectMap, id)
        then objectMap[id] in cache && Extends(heap, objectMap, old(B()), B(), objectMap[id])
        else B() == old(B())
      ensures v == ValueOf(objectMap, cache, id)
      ensures order == Meet(heap, objectMap, id, old(order))
      decreases Unbuilt(heap, cache), 1
    {
      hide RecChildren, Filled, LeadsOn, EncRec, At, SeesStandIn, Placed;
      if id !in objectMap {
        return NoneValue;
      }
      var offset := objectMap[id];
      if IsMagicOffset(offset) {
        return Singleton(offset);
      }
      if offset in cache {
        return Ref(cache[offset]);
      }
      var obj := ReadObject(img, offset, heapPos, heap[offset]);
      v := Build(img, offset, obj.value, objectMap, heapPos, heap, open);
    }

    /**
     * Build the object of a record. It enters the cache before its references are followed; an exact
     * tuple, which cannot be filled in place, is represented by a list until it is complete.
     */
    method Build(img: seq<Byte>, offset: U64, obj: Rec, objectMap: map<U64, U64>, ghost heapPos: U64,
                 ghost heap: map<nat, Rec>, ghost open: set<U64>)
      returns (v: Value)
      requires HeapIn(img, heapPos, heap) && MapGood(heap, objectMap)
      requires Coherent(heap, objectMap, B(), open) && Placed()
      requires offset in heap && heap[offset] == obj && offset !in cache
      modifies this
      ensures Placed()
      ensures Coherent(heap, objectMap, B(), open) && Extends(heap, objectMap, old(B()), B(), offset)
      ensures offset in cache && v == Ref(cache[offset])
      ensures order == MeetAll(heap, objectMap, RecChildren(obj), old(order) + [offset])
      decreases Unbuilt(heap, cache), 0
    {
      hide RecChildren, HeapIn, MapGood, Unbuilt, ChildrenBuilt, Filled, LeadsOn, Appended, Converted, SeesStandIn,
           Filling, Coherent, Meet, Placed;
      ghost var b0 := B();
      var at := |store|;
      NotOpen(heap, objectMap, b0, open, offset);
      Open(offset, obj);
      FillStarts(heap, objectMap, b0, open, offset);
      var ids := RecChildren(obj);
      assert ids[..0] == [];
      for i := 0 to |ids|
        invariant Filling(heap, objectMap, b0, B(), open, offset, i) && Placed()
        invariant order == MeetAll(heap, objectMap, ids[..i], b0.order + [offset])
      {
        ghost var b := B();
        FillingSo(heap, objectMap, b0, b, open, offset, i);
        FewerUnbuilt(heap, b0.cache, cache, offset);
        var child := GetPythonObject(img, ids[i], objectMap, heapPos, heap, open + {offset});
        FillStep(heap, objectMap, b0, b, B(), open, offset, i, child);
        assert ids[..i + 1][..i] == ids[..i];
        ChildInStore(heap, objectMap, B(), open + {offset}, ids[i], child);
        Append(at, child);
      }
      assert ids[..|ids|] == ids;
      FillingSo(heap, objectMap, b0, B(), open, offset, |ids|);
      if IsExactTuple(obj) {
        TupleEnds(heap, objectMap, b0, B(), open, offset);
        Convert(offset, at);
      } else {
        FillEnds(heap, objectMap, b0, B(), open, offset);
      }
      v := Ref(cache[offset]);
    }

    method Open(offset: U64, obj: Rec)
      requires Placed()
      modifies this
      ensures B() == Opened(old(B()), offset, obj) && Placed()
    {
      ghost var was := store;
      cache, order := cache[offset := |store|], order + [offset];
      store, slots := store + [Node(obj, [], IsExactTuple(obj))], slots + [[]];
      forall n | 0 <= n < |was| ensures SlotsRight(store, was[n], slots[n]) {
        SlotsStayRight(was, store, was[n], slots[n]);
      }
    }

    /** Put a reference in the next place of a node, or its text if the place is for another kind of key. */
    method Append(at: nat, child: Value)
      requires at < |store| && Placed() && Stored(store, child)
      modifies this`store, this`slots
      ensures B() == Appended(old(B()), at, child) && Placed()
    {
      ghost var was, had := store, slots;
      var node := store[at];
      var slot := SlotFor(store, PlaceIn(node.rec, |node.refs|), child);
      store := store[at := node.(refs := node.refs + [child])];
      slots := slots[at := slots[at] + [slot]];
      forall n | 0 <= n < |was| ensures SlotsRight(store, store[n], slots[n]) {
        SlotsStayRight(was, store, was[n], had[n]);
      }
    }

    /** Make a tuple of the list, and let it take the place of the list in the cache. */
    method Convert(offset: U64, at: nat)
      requires at < |store| && Placed()
      modifies this`cache, this`store, this`slots, this`standIns
      ensures B() == Converted(old(B()), offset, at) && Placed()
    {
      ghost var was := store;
      cache := cache[offset := |store|];
      store, slots := store + [store[at].(standIn := false)], slots + [slots[at]];
      standIns := standIns[offset := at];
      forall n | 0 <= n < |was| ensures SlotsRight(store, was[n], slots[n]) {
        SlotsStayRight(was, store, was[n], slots[n]);
      }
    }
  }

  lemma ChildInStore(heap: map<nat, Rec>, m: map<U64, U64>, b: Built, open: set<U64>, id: U64, v: Value)
    requires Coherent(heap, m, b, open) && v == ValueOf(m, b.cache, id)
    ensures Stored(b.store, v)
  {
    hide LeadsOn, Filled, SeesStandIn;
  }

  lemma NotOpen(heap: map<nat, Rec>, m: map<U64, U64>, b: Built, open: set<U64>, off: U64)
    requires Coherent(heap, m, b, open) && off !in b.cache
    ensures off !in open
  {
    hide LeadsOn, Filled;
  }

  lemma FillingSo(heap: map<nat, Rec>, m: map<U64, U64>, b0: Built, b: Built, open: set<U64>, off: U64, i: nat)
    requires Filling(heap, m, b0, b, open, off, i)
    ensures Coherent(heap, m, b, open + {off}) && off in heap && off in b.cache && off !in b0.cache
    ensures |b0.store| < |b.store|
    ensures b.cache[off] == |b0.store| && forall x :: x in b0.cache ==> x in b.cache
  {
    hide LeadsOn, Filled;
  }

  // ------------------------------------------------------------------
  // What comes out
  // ------------------------------------------------------------------

  /** One node per reachable record and none besides. */
  ghost predicate OneNodeEach(heap: map<nat, Rec>, m: map<U64, U64>, b: Built, root: U64) {
    && (forall off :: off in b.cache <==> Reachable(heap, m, root, off))
    && (forall x, y :: x in b.cache && y in b.cache && b.cache[x] == b.cache[y] ==> x == y)
  }

  /** Every node is its record, with every reference in its place. */
  ghost predicate AllComplete(heap: map<nat, Rec>, m: map<U64, U64>, b: Built) {
    forall off :: off in b.cache ==> Complete(heap, m, b, off)
  }

  /** The built graph is the written one: the same record in every node, and every reference in its place. */
  ghost predicate Mirrors(heap: map<nat, Rec>, m: map<U64, U64>, b: Built, root: U64) {
    OneNodeEach(heap, m, b, root) && AllComplete(heap, m, b)
  }

  lemma {:induction false} PathBuilt(heap: map<nat, Rec>, m: map<U64, U64>, b: Built, a: U64, c: U64, n: nat)
    requires Coherent(heap, m, b, {}) && a in b.cache && Path(heap, m, a, c, n)
    ensures c in b.cache
    decreases n
  {
    hide Edge, Filled, LeadsOn;
    if n > 0 {
      var x :| Path(heap, m, a, x, n - 1) && Edge(heap, m, x, c);
      PathBuilt(heap, m, b, a, x, n - 1);
      EdgeBuilt(heap, m, b, x, c);
    }
  }

  /** Where no stand-in is seen, a filled node is complete; where one is seen, it is not. */
  lemma CompleteUnless(heap: map<nat, Rec>, m: map<U64, U64>, b: Built, off: U64)
    requires Coherent(heap, m, b, {}) && off in b.cache
    ensures Complete(heap, m, b, off) <==> !exists t :: Edge(heap, m, off, t) && SeesStandIn(heap, m, b, t, off)
  {
    hide RecChildren, SeesStandIn, Edge;
    assert Filled(heap, m, b, off);
    var ids, refs := RecChildren(heap[off]), b.store[b.cache[off]].refs;
    if t :| Edge(heap, m, off, t) && SeesStandIn(heap, m, b, t, off) {
      var i := EdgeFrom(heap, m, off, t);
      StandInDiffers(heap, m, b, off, ids[i]);
      assert refs[i] != Values(m, b.cache, ids)[i];
    } else {
      forall i | 0 <= i < |ids| ensures refs[i] == ValueOf(m, b.cache, ids[i]) {
        if HasNode(m, ids[i]) {
          EdgeSo(heap, m, off, i);
        }
      }
      assert refs == Values(m, b.cache, ids);
    }
  }

  lemma EdgeFrom(heap: map<nat, Rec>, m: map<U64, U64>, a: U64, b: U64) returns (i: nat)
    requires Edge(heap, m, a, b)
    ensures a in heap && i < |RecChildren(heap[a])| && HasNode(m, RecChildren(heap[a])[i])
    ensures m[RecChildren(heap[a])[i]] == b
  {
    var c :| c in RecChildren(heap[a]) && c in m && m[c] == b && !IsMagicOffset(b);
    i :| 0 <= i < |RecChildren(heap[a])| && RecChildren(heap[a])[i] == c;
  }

  lemma StandInDiffers(heap: map<nat, Rec>, m: map<U64, U64>, b: Built, x: U64, c: U64)
    requires Coherent(heap, m, b, {}) && HasNode(m, c) && SeesStandIn(heap, m, b, m[c], x)
    ensures RefOf(heap, m, b, x, c) != ValueOf(m, b.cache, c)
  {
    hide LeadsOn, Filled;
  }

  /** All that was built is as written exactly if no exact tuple was met before the rest of one of its cycles. */
  lemma CompleteEverywhere(heap: map<nat, Rec>, m: map<U64, U64>, b: Built)
    requires Coherent(heap, m, b, {})
    ensures AllComplete(heap, m, b) <==> !TupleMetFirst(heap, m, b.order)
  {
    hide LeadsOn, Edge, Complete, Reachable, Filled;
    forall off | off in b.cache
      ensures Complete(heap, m, b, off) <==> !exists t :: Edge(heap, m, off, t) && SeesStandIn(heap, m, b, t, off)
    {
      CompleteUnless(heap, m, b, off);
    }
    forall t, x | LeadsOn(heap, m, b.order, t, x) ensures NotBefore(b.order, t, x) {
      LeadsMet(heap, m, b.order, t, x);
    }
    if TupleMetFirst(heap, m, b.order) {
      var t: U64, x: U64 :| t in heap && IsExactTuple(heap[t]) && LeadsOn(heap, m, b.order, t, x)
        && Edge(heap, m, x, t);
      assert t in b.standIns && SeesStandIn(heap, m, b, t, x) && x in b.cache;
    }
  }

  // ------------------------------------------------------------------
  // When no tuple is met first
  // ------------------------------------------------------------------

  lemma {:induction false} MeetClosed(heap: map<nat, Rec>, m: map<U64, U64>, id: U64, order: seq<U64>, x: U64, y: U64)
    requires MapGood(heap, m) && x in Meet(heap, m, id, order) && x !in order && Edge(heap, m, x, y)
    ensures y in Meet(heap, m, id, order)
    decreases Unmet(heap, order), 0
  {
    hide Edge, RecChildren;
    var off := m[id];
    FewerUnmet(heap, order, order + [off]);
    var ids, from := RecChildren(heap[off]), order + [off];
    if x == off {
      var i := EdgeFrom(heap, m, off, y);
      MeetsEach(heap, m, ids, from, i);
    } else {
      MeetAllClosed(heap, m, ids, from, x, y);
    }
  }

  lemma {:induction false} MeetAllClosed(heap: map<nat, Rec>, m: map<U64, U64>, ids: seq<U64>, order: seq<U64>, x: U64,
                                         y: U64)
    requires MapGood(heap, m) && x in MeetAll(heap, m, ids, order) && x !in order && Edge(heap, m, x, y)
    ensures y in MeetAll(heap, m, ids, order)
    decreases Unmet(heap, order), |ids| + 1
  {
    hide Edge, RecChildren, Meet;
    var n := |ids| - 1;
    var before := MeetAll(heap, m, ids[..n], order);
    FewerUnmet(heap, order, before);
    if x in before {
      MeetAllClosed(heap, m, ids[..n], order, x, y);
    } else {
      MeetClosed(heap, m, ids[n], before, x, y);
    }
  }

  lemma {:induction false} MeetsEach(heap: map<nat, Rec>, m: map<U64, U64>, ids: seq<U64>, order: seq<U64>, i: nat)
    requires MapGood(heap, m) && i < |ids| && HasNode(m, ids[i])
    ensures m[ids[i]] in MeetAll(heap, m, ids, order)
    decreases |ids|
  {
    hide RecChildren, Meet;
    var n := |ids| - 1;
    if i < n {
      assert ids[..n][i] == ids[i];
      MeetsEach(heap, m, ids[..n], order, i);
    } else {
      MeetsOne(heap, m, ids[n], MeetAll(heap, m, ids[..n], order));
    }
  }

  lemma MeetsOne(heap: map<nat, Rec>, m: map<U64, U64>, id: U64, order: seq<U64>)
    requires MapGood(heap, m) && HasNode(m, id)
    ensures m[id] in Meet(heap, m, id, order)
  {
    hide RecChildren;
    var off, r := m[id], Meet(heap, m, id, order);
    if off !in order {
      assert (order + [off])[|order|] == off && r[|order|] == off;
    }
  }

  /** The preorder holds everything that can be reached. */
  lemma {:induction false} PreorderHas(heap: map<nat, Rec>, m: map<U64, U64>, id: U64, x: U64, n: nat)
    requires MapGood(heap, m) && HasNode(m, id) && Path(heap, m, m[id], x, n)
    ensures x in Preorder(heap, m, id) && NotBefore(Preorder(heap, m, id), m[id], x)
    decreases n
  {
    hide Edge, RecChildren;
    var order := Preorder(heap, m, id);
    assert order[0] == m[id] && MetAt(order, m[id]) == 0;
    if n > 0 {
      var y :| Path(heap, m, m[id], y, n - 1) && Edge(heap, m, y, x);
      PreorderHas(heap, m, id, y, n - 1);
      MeetClosed(heap, m, id, [], y, x);
    }
  }

  lemma {:induction false} FirstLeads(heap: map<nat, Rec>, m: map<U64, U64>, id: U64, x: U64, n: nat)
    requires MapGood(heap, m) && HasNode(m, id) && Path(heap, m, m[id], x, n)
    ensures LeadsOn(heap, m, Preorder(heap, m, id), m[id], x)
    decreases n
  {
    hide Edge, Preorder, LeadsOn, NotBefore;
    PreorderHas(heap, m, id, x, n);
    InOrder(Preorder(heap, m, id), m[id], x);
    if n == 0 {
      LeadsToItself(heap, m, Preorder(heap, m, id), m[id]);
    } else {
      var y :| Path(heap, m, m[id], y, n - 1) && Edge(heap, m, y, x);
      FirstLeads(heap, m, id, y, n - 1);
      LeadsThenEdge(heap, m, Preorder(heap, m, id), m[id], y, x);
    }
  }

  lemma {:induction false} MetIsReachable(heap: map<nat, Rec>, m: map<U64, U64>, id: U64, order: seq<U64>, x: U64)
    requires x in Meet(heap, m, id, order) && x !in order
    ensures HasNode(m, id) && Reachable(heap, m, m[id], x)
    decreases Unmet(heap, order), 0
  {
    hide Edge, RecChildren, Reachable;
    var off := m[id];
    FewerUnmet(heap, order, order + [off]);
    SelfReachable(heap, m, off);
    if x != off {
      var i := MetFromSome(heap, m, RecChildren(heap[off]), order + [off], x);
      EdgeSo(heap, m, off, i);
      EdgeThenReachable(heap, m, off, m[RecChildren(heap[off])[i]], x);
    }
  }

  lemma {:induction false} MetFromSome(heap: map<nat, Rec>, m: map<U64, U64>, ids: seq<U64>, order: seq<U64>, x: U64)
    returns (i: nat)
    requires x in MeetAll(heap, m, ids, order) && x !in order
    ensures i < |ids| && HasNode(m, ids[i]) && Reachable(heap, m, m[ids[i]], x)
    decreases Unmet(heap, order), |ids| + 1
  {
    hide Edge, RecChildren, Reachable, Meet;
    var n := |ids| - 1;
    var before := MeetAll(heap, m, ids[..n], order);
    FewerUnmet(heap, order, before);
    if x in before {
      i := MetFromSome(heap, m, ids[..n], order, x);
    } else {
      i := n;
      MetIsReachable(heap, m, ids[n], before, x);
    }
  }

  /** If no exact tuple is on a cycle, none is met too early, in whatever order. */
  lemma AcyclicIsSafe(heap: map<nat, Rec>, m: map<U64, U64>, id: U64)
    requires HasNode(m, id)
    ensures NoTupleCycles(heap, m, m[id]) ==> !TupleMetFirst(heap, m, Preorder(heap, m, id))
  {
    hide Edge, LeadsOn, Reachable, Meet;
    var order := Preorder(heap, m, id);
    if TupleMetFirst(heap, m, order) {
      var t: U64, x: U64 :| t in heap && IsExactTuple(heap[t]) && LeadsOn(heap, m, order, t, x) && Edge(heap, m, x, t);
      LeadsMet(heap, m, order, t, x);
      MetIsReachable(heap, m, id, [], t);
      assert TupleOnCycle(heap, m, t);
    }
  }

  /** An exact tuple on a cycle is met first if it is what is asked for. */
  lemma CyclicIsUnsafe(heap: map<nat, Rec>, m: map<U64, U64>, id: U64)
    requires MapGood(heap, m) && HasNode(m, id) && TupleOnCycle(heap, m, m[id])
    ensures TupleMetFirst(heap, m, Preorder(heap, m, id))
  {
    hide Edge, LeadsOn, Meet, Path;
    var u: U64 :| Reachable(heap, m, m[id], u) && Edge(heap, m, u, m[id]);
    var n: nat :| Path(heap, m, m[id], u, n);
    FirstLeads(heap, m, id, u, n);
  }

  /** Whatever object is asked for first comes out right exactly if no exact tuple is on a cycle. */
  lemma SafeFromAnywhere(heap: map<nat, Rec>, m: map<U64, U64>, root: U64)
    requires MapGood(heap, m) && HasNode(m, root)
    ensures NoTupleCycles(heap, m, m[root]) <==>
      forall id :: HasNode(m, id) && Reachable(heap, m, m[root], m[id]) ==>
        !TupleMetFirst(heap, m, Preorder(heap, m, id))
  {
    hide Edge, LeadsOn, Reachable, Preorder, TupleMetFirst, TupleOnCycle;
    if NoTupleCycles(heap, m, m[root]) {
      forall id | HasNode(m, id) && Reachable(heap, m, m[root], m[id])
        ensures !TupleMetFirst(heap, m, Preorder(heap, m, id))
      {
        forall t | Reachable(heap, m, m[id], t) ensures !TupleOnCycle(heap, m, t) {
          ReachableTwice(heap, m, m[root], m[id], t);
        }
        AcyclicIsSafe(heap, m, id);
      }
    } else {
      var t :| Reachable(heap, m, m[root], t) && TupleOnCycle(heap, m, t);
      var id := IdOf(heap, m, t);
      CyclicIsUnsafe(heap, m, id);
    }
  }

  lemma IdOf(heap: map<nat, Rec>, m: map<U64, U64>, t: U64) returns (id: U64)
    requires TupleOnCycle(heap, m, t)
    ensures HasNode(m, id) && m[id] == t
  {
    hide Reachable;
    var u: U64 :| Reachable(heap, m, t, u) && Edge(heap, m, u, t);
    var i := EdgeFrom(heap, m, u, t);
    id := RecChildren(heap[u])[i];
  }

  lemma ReachableTwice(heap: map<nat, Rec>, m: map<U64, U64>, a: U64, b: U64, c: U64)
    requires Reachable(heap, m, a, b) && Reachable(heap, m, b, c)
    ensures Reachable(heap, m, a, c)
  {
    hide Path;
    var n: nat :| Path(heap, m, b, c, n);
    ReachableFurther(heap, m, a, b, c, n);
  }

  lemma {:induction false} ReachableFurther(heap: map<nat, Rec>, m: map<U64, U64>, a: U64, b: U64, c: U64, n: nat)
    requires Reachable(heap, m, a, b) && Path(heap, m, b, c, n)
    ensures Reachable(heap, m, a, c)
    decreases n
  {
    hide Edge, Reachable;
    if n > 0 {
      var x :| Path(heap, m, b, x, n - 1) && Edge(heap, m, x, c);
      ReachableFurther(heap, m, a, b, x, n - 1);
      ReachableThenEdge(heap, m, a, x, c);
    }
  }

  /** A list that holds a tuple that holds the list. */
  const LIST_AND_TUPLE: map<nat, Rec> := map[0 := Elems(ListKind, [2]), 9 := Elems(TupleKind, [1])]
  const THEIR_IDS: map<U64, U64> := map[1 := 0, 2 := 9]

  /** It comes out right if the list is asked for, and wrong if the tuple is. */
  lemma OrderMatters()
    ensures TupleOnCycle(LIST_AND_TUPLE, THEIR_IDS, 9)
    ensures !TupleMetFirst(LIST_AND_TUPLE, THEIR_IDS, Preorder(LIST_AND_TUPLE, THEIR_IDS, 1))
    ensures TupleMetFirst(LIST_AND_TUPLE, THEIR_IDS, Preorder(LIST_AND_TUPLE, THEIR_IDS, 2))
  {
    hide LeadsOn, TupleMetFirst, Preorder, Path, NotBefore;
    var heap, m := LIST_AND_TUPLE, THEIR_IDS;
    assert 2 in RecChildren(heap[0]) && 1 in RecChildren(heap[9]);
    assert Edge(heap, m, 0, 9) && Edge(heap, m, 9, 0);
    SelfReachable(heap, m, 9);
    ReachableThenEdge(heap, m, 9, 9, 0);
    CyclicIsUnsafe(heap, m, 2);
    ListFirst();
    NotFirst();
  }

  lemma ListFirst()
    ensures Preorder(LIST_AND_TUPLE, THEIR_IDS, 1) == [0, 9]
  {
    var heap, m := LIST_AND_TUPLE, THEIR_IDS;
    var none: seq<U64> := [];
    assert [2][..0] == none && [1][..0] == none;
    calc {
      MeetAll(heap, m, [1], [0, 9]);
    ==
      Meet(heap, m, 1, [0, 9]);
    ==
      [0, 9];
    }
    calc {
      Preorder(heap, m, 1);
    ==
      { assert none + [0] == [0]; }
      MeetAll(heap, m, [2], [0]);
    ==
      Meet(heap, m, 2, [0]);
    ==
      MeetAll(heap, m, [1], [0] + [9]);
    ==
      { assert [0] + [9] == [0, 9]; }
      [0, 9];
    }
  }

  lemma NotFirst()
    ensures !TupleMetFirst(LIST_AND_TUPLE, THEIR_IDS, [0, 9])
  {
    hide LeadsOn;
    var heap, m, order := LIST_AND_TUPLE, THEIR_IDS, [0, 9];
    assert order[1..] == [9];
    forall t: U64, x: U64 | t in heap && IsExactTuple(heap[t]) && LeadsOn(heap, m, order, t, x)
      ensures !Edge(heap, m, x, t)
    {
      LeadsMet(heap, m, order, t, x);
      assert MetAt(order, 0) == 0 && MetAt(order, 9) == 1;
    }
  }

  /**
   * Rebuilding an object from an empty cache ends, whatever cycles the written graph has, with one
   * node per reachable record. Every reference is the object it stands for, except that an exact tuple
   * is a list to whatever was met from it while it was open. So the built graph is the written one
   * exactly if no exact tuple is met before the rest of one of its cycles.
   */
  method RebuildObject(img: seq<Byte>, id: U64, objectMap: map<U64, U64>, ghost heapPos: U64, ghost heap: map<nat, Rec>)
    returns (v: Value, built: ObjectCache)
    requires HeapIn(img, heapPos, heap) && MapGood(heap, objectMap) && HasNode(objectMap, id)
    ensures built.order == Preorder(heap, objectMap, id)
    ensures OneNodeEach(heap, objectMap, built.B(), objectMap[id])
    ensures forall off :: off in built.cache ==> Filled(heap, objectMap, built.B(), off)
    ensures forall t :: t in built.standIns <==> t in built.cache && t in heap && IsExactTuple(heap[t])
    ensures Mirrors(heap, objectMap, built.B(), objectMap[id]) <==>
      !TupleMetFirst(heap, objectMap, Preorder(heap, objectMap, id))
    ensures v == ValueOf(objectMap, built.cache, id) && v.Ref? && built.Placed()
  {
    hide HeapIn, Complete, Filled, Path, Edge, SeesStandIn, LeadsOn, TupleMetFirst, Meet;
    built := new ObjectCache();
    v := built.GetPythonObject(img, id, objectMap, heapPos, heap, {});
    ghost var root, b := objectMap[id], built.B();
    forall off | Reachable(heap, objectMap, root, off) ensures off in built.cache {
      var n: nat :| Path(heap, objectMap, root, off, n);
      PathBuilt(heap, objectMap, b, root, off, n);
    }
    forall off | off in built.cache ensures Reachable(heap, objectMap, root, off) {
      LeadsMet(heap, objectMap, b.order, root, off);
    }
    CompleteEverywhere(heap, objectMap, b);
  }

  /** The ids that are there. */
  function Somes(wanted: seq<Option<U64>>): seq<U64> {
    if wanted == [] then []
    else
      var n := |wanted| - 1;
      Somes(wanted[..n]) + if wanted[n].Some? then [wanted[n].value] else []
  }

  function ValueOfSome(m: map<U64, U64>, cache: map<U64, nat>, id: Option<U64>): Value {
    if id.None? then NoneValue else ValueOf(m, cache, id.value)
  }

  ghost predicate HasBuilt(m: map<U64, U64>, cache: map<U64, nat>, id: Option<U64>) {
    id.Some? && HasNode(m, id.value) ==> m[id.value] in cache
  }

  /** What has been handed out for the roots asked for so far, in turn. */
  ghost predicate Gathered(heap: map<nat, Rec>, m: map<U64, U64>, wanted: seq<Option<U64>>, values: seq<Value>,
                           b: Built)
  {
    && b.order == MeetAll(heap, m, Somes(wanted), [])
    && |values| == |wanted|
    && forall i :: 0 <= i < |wanted| ==>
       values[i] == ValueOfSome(m, b.cache, wanted[i]) && HasBuilt(m, b.cache, wanted[i])
  }

  lemma SomesMore(wanted: seq<Option<U64>>, id: Option<U64>)
    ensures Somes(wanted + [id]) == if id.Some? then Somes(wanted) + [id.value] else Somes(wanted)
  {
    assert (wanted + [id])[..|wanted|] == wanted;
    assert Somes(wanted) + [] == Somes(wanted);
  }

  lemma MeetAllMore(heap: map<nat, Rec>, m: map<U64, U64>, ids: seq<U64>, id: U64, order: seq<U64>)
    ensures MeetAll(heap, m, ids + [id], order) == Meet(heap, m, id, MeetAll(heap, m, ids, order))
  {
    hide Meet;
    assert (ids + [id])[..|ids|] == ids;
  }

  lemma GatheredMore(heap: map<nat, Rec>, m: map<U64, U64>, wanted: seq<Option<U64>>, values: seq<Value>, b: Built,
                     id: Option<U64>, v: Value, b': Built)
    requires Gathered(heap, m, wanted, values, b) && v == ValueOfSome(m, b'.cache, id) && HasBuilt(m, b'.cache, id)
    requires if id.None? then b' == b else b'.order == Meet(heap, m, id.value, b.order)
    requires forall off :: off in b.cache ==> off in b'.cache && b'.cache[off] == b.cache[off]
    ensures Gathered(heap, m, wanted + [id], values + [v], b')
  {
    hide Meet, MeetAll, Somes, HasBuilt, ValueOfSome;
    SomesMore(wanted, id);
    if id.Some? {
      MeetAllMore(heap, m, Somes(wanted), id.value, []);
    }
    assert b'.order == MeetAll(heap, m, Somes(wanted + [id]), []);
    forall i | 0 <= i < |wanted|
      ensures ValueOfSome(m, b'.cache, wanted[i]) == values[i] && HasBuilt(m, b'.cache, wanted[i])
    {
      SameForSome(m, b.cache, b'.cache, wanted[i]);
    }
  }

  lemma SameForSome(m: map<U64, U64>, cache: map<U64, nat>, cache': map<U64, nat>, id: Option<U64>)
    requires HasBuilt(m, cache, id) && forall off :: off in cache ==> off in cache' && cache'[off] == cache[off]
    ensures HasBuilt(m, cache', id) && ValueOfSome(m, cache', id) == ValueOfSome(m, cache, id)
  {
  }

  /**
   * Many objects with one cache: they share what they have in common, and all of them are as written
   * exactly if no exact tuple is met before the rest of one of its cycles.
   */
  method RebuildEach(img: seq<Byte>, wanted: seq<Option<U64>>, objectMap: map<U64, U64>, ghost heapPos: U64,
                     ghost heap: map<nat, Rec>)
    returns (values: seq<Value>, built: ObjectCache)
    requires HeapIn(img, heapPos, heap) && MapGood(heap, objectMap)
    ensures built.order == MeetAll(heap, objectMap, Somes(wanted), []) && built.Placed()
    ensures |values| == |wanted| && forall i :: 0 <= i < |wanted| ==>
      values[i] == ValueOfSome(objectMap, built.cache, wanted[i])
    ensures forall i :: 0 <= i < |wanted| ==> HasBuilt(objectMap, built.cache, wanted[i])
    ensures forall off :: off in built.cache ==> Filled(heap, objectMap, built.B(), off)
    ensures AllComplete(heap, objectMap, built.B()) <==> !TupleMetFirst(heap, objectMap, built.order)
  {
    hide HeapIn, MapGood, AllComplete, TupleMetFirst, Filled, Meet, MeetAll, LeadsOn, Coherent, SeesStandIn, Somes,
         HasNode;
    built := new ObjectCache();
    values := [];
    NothingBuilt(heap, objectMap);
    for i := 0 to |wanted|
      invariant Coherent(heap, objectMap, built.B(), {}) && built.Placed() && fresh(built)
      invariant Gathered(heap, objectMap, wanted[..i], values, built.B())
    {
      ghost var b := built.B();
      var v := NoneValue;
      if wanted[i].Some? {
        v := built.GetPythonObject(img, wanted[i].value, objectMap, heapPos, heap, {});
      }
      GatheredMore(heap, objectMap, wanted[..i], values, b, wanted[i], v, built.B());
      assert wanted[..i + 1] == wanted[..i] + [wanted[i]];
      values := values + [v];
    }
    assert wanted[..|wanted|] == wanted;
    AllFilled(heap, objectMap, built.B());
    CompleteEverywhere(heap, objectMap, built.B());
  }

  lemma NothingBuilt(heap: map<nat, Rec>, m: map<U64, U64>)
    ensures Coherent(heap, m, Built(map[], [], map[], []), {})
    ensures Gathered(heap, m, [], [], Built(map[], [], map[], []))
  {
  }

  lemma AllFilled(heap: map<nat, Rec>, m: map<U64, U64>, b: Built)
    requires Coherent(heap, m, b, {})
    ensures forall off :: off in b.cache ==> Filled(heap, m, b, off)
  {
    hide Filled, LeadsOn;
  }
}
