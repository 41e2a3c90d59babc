/**
 * Python objects as the capture layer sees them: an immutable graph of ids, kinds and ordered
 * children, and the heap record each object is to be written as.
 */
module Objects {
  import opened Bytes
  import opened Format
  import opened Identity
  import opened Reading
  import opened IntText

  // Element counts are cast to 32 bits.
  type Ids = s: seq<U64> | |s| < 0x1_0000_0000
  type Pairs = s: seq<Pair> | |s| < 0x1_0000_0000

  /**
   * What the type tests of the capture layer distinguish. `attrs` is absent for the exact builtin
   * containers. A text is absent if it cannot be had as UTF-8, a hash if hashing raised.
   */
  datatype Body =
    | NoneBody
    | BoolBody(value: bool)
    | IntBody(number: int, text: Option<Str>)
    | FloatBody(bits: U64)
    | TextBody(isBytes: bool, chars: Option<Str>, pyHash: Option<U64>)
    | SeqBody(kind: SeqKind, items: Ids, attrs: Option<Pairs>)
    | DictBody(entries: Pairs, attrs: Option<Pairs>)
    | ReprBody
    | OtherBody(members: Pairs)

  datatype PyObject = PyObject(typePtr: U64, typeName: Str, repr: Option<Str>, body: Body)

  type Graph = map<U64, PyObject>

  /** None, booleans, numbers, strings and bytes: written whatever their depth. */
  predicate IsLeaf(o: PyObject) {
    !o.body.SeqBody? && !o.body.DictBody? && !o.body.ReprBody? && !o.body.OtherBody?
  }

  predicate IsMagic(o: PyObject) {
    o.body.NoneBody? || o.body.BoolBody?
  }

  function MagicOffset(o: PyObject): (offset: U64)
    requires IsMagic(o)
    ensures IsMagicOffset(offset)
  {
    if o.body.NoneBody? then NONE_OFFSET else if o.body.value then TRUE_OFFSET else FALSE_OFFSET
  }

  /** Objects whose text cannot be had are counted as errors and skipped. */
  predicate Unreadable(o: PyObject) {
    (o.body.IntBody? && !FitsI64(o.body.number) && o.body.text.None?)
    || (o.body.TextBody? && o.body.chars.None?)
  }

  const REPR_FAILED: Str := [0x3c, 0x72, 0x65, 0x70, 0x72, 0x20, 0x66, 0x61, 0x69, 0x6c, 0x65, 0x64, 0x3e]

  function ReprOr(o: PyObject, fallback: Str): Str {
    if o.repr.Some? then o.repr.value else fallback
  }

  /** The record of an object nearer than the depth limit. */
  function FullRec(o: PyObject): Rec
    requires !IsMagic(o) && !Unreadable(o)
  {
    match o.body
    case IntBody(v, text) => if FitsI64(v) then Int64(v) else IntRec(text.value)
    case FloatBody(bits) => Float(bits)
    case TextBody(isBytes, chars, _) => Text(if isBytes then BytesText else StringText, chars.value)
    case SeqBody(kind, items, None) => Elems(kind, items)
    case SeqBody(kind, items, Some(attrs)) => SerElems(kind, items, Meta(o.typeName, ReprOr(o, []), attrs))
    case DictBody(entries, None) => Dict(entries)
    case DictBody(entries, Some(attrs)) => SerDict(entries, Meta(o.typeName, ReprOr(o, []), attrs))
    case ReprBody => Text(StringText, ReprOr(o, REPR_FAILED))
    case OtherBody(members) => SerObject(Meta(o.typeName, ReprOr(o, REPR_FAILED), members))
  }

  /** The record of an object at the depth limit: its repr, without children. */
  function LimitRec(o: PyObject): Rec {
    SerObject(Meta(o.typeName, ReprOr(o, REPR_FAILED), []))
  }

  function Flat(pairs: seq<Pair>): (ids: seq<U64>)
    ensures |ids| == 2 * |pairs|
    ensures forall i :: 0 <= i < |pairs| ==> ids[2 * i] == pairs[i].key && ids[2 * i + 1] == pairs[i].value
  {
    if pairs == [] then [] else Flat(pairs[..|pairs| - 1]) + [pairs[|pairs| - 1].key, pairs[|pairs| - 1].value]
  }

  function AttrIds(attrs: Option<Pairs>): seq<U64> {
    if attrs.Some? then Flat(attrs.value) else []
  }

  /** The ids of the objects an object refers to, in the order they are queued. */
  function Children(o: PyObject): seq<U64> {
    match o.body
    case SeqBody(_, items, attrs) => items + AttrIds(attrs)
    case DictBody(entries, attrs) => Flat(entries) + AttrIds(attrs)
    case OtherBody(members) => Flat(members)
    case _ => []
  }

  /** The ids a heap record refers to. */
  function RecChildren(r: Rec): seq<U64> {
    match r
    case Elems(_, ids) => ids
    case Dict(pairs) => Flat(pairs)
    case SerObject(m) => Flat(m.attrs)
    case SerElems(_, ids, m) => ids + Flat(m.attrs)
    case SerDict(pairs, m) => Flat(pairs) + Flat(m.attrs)
    case _ => []
  }

  /** A full record refers to what the object refers to, and a record at the limit to nothing. */
  lemma RecordKeepsChildren(o: PyObject)
    requires !IsMagic(o) && !Unreadable(o)
    ensures RecChildren(FullRec(o)) == Children(o)
    ensures RecChildren(LimitRec(o)) == []
  {
    if o.body.SeqBody? && o.body.attrs.None? {
      assert o.body.items + [] == o.body.items;
    } else if o.body.DictBody? && o.body.attrs.None? {
      assert Flat(o.body.entries) + [] == Flat(o.body.entries);
    }
  }

  /** The hash under which the record of an object outlives its snapshot, if it does. */
  function ObjectHash(o: PyObject): Option<U64> {
    match o.body
    case TextBody(_, _, Some(h)) => Some(TextHash(h, o.typePtr))
    case SeqBody(_, items, _) => Some(IdentityHash(o.typePtr, |items|, Children(o)))
    case DictBody(entries, _) => Some(IdentityHash(o.typePtr, |entries|, Children(o)))
    case OtherBody(members) => Some(IdentityHash(o.typePtr, |members|, Children(o)))
    case _ => None
  }

  /** A list, set or tuple with another element in one place. */
  function WithItem(o: PyObject, j: nat, id: U64): PyObject
    requires o.body.SeqBody? && j < |o.body.items|
  {
    o.(body := o.body.(items := o.body.items[j := id]))
  }

  /** The number that goes into the hash of a container. */
  function CountOf(o: PyObject): Option<U64> {
    match o.body
    case SeqBody(_, items, _) => Some(|items|)
    case DictBody(entries, _) => Some(|entries|)
    case OtherBody(members) => Some(|members|)
    case _ => None
  }

  /** A container with another object in one place: an element, a key, a value, or the name or value of an attribute. */
  predicate DiffersAt(o: PyObject, o': PyObject, j: nat, id: U64) {
    && o'.typePtr == o.typePtr && CountOf(o).Some? && CountOf(o') == CountOf(o)
    && j < |Children(o)| && Children(o') == Children(o)[j := id]
  }

  /**
   * A container with another object in one place has another hash if that place is mixed once, the same hash
   * if it is not mixed, and the same if it is mixed twice and the ids differ in the top bit alone.
   */
  lemma ItemChangeNoticed(o: PyObject, o': PyObject, j: nat, id: U64)
    requires DiffersAt(o, o', j, id) && id != Children(o)[j]
    ensures TimesMixed(|Children(o)|, j) == 1 ==> ObjectHash(o') != ObjectHash(o)
    ensures TimesMixed(|Children(o)|, j) == 0 ==> ObjectHash(o') == ObjectHash(o)
    ensures TimesMixed(|Children(o)|, j) == 2 && id == Flipped(Children(o)[j]) ==> ObjectHash(o') == ObjectHash(o)
  {
    hide IdentityHash, Children, TimesMixed, Flipped;
    ChildChangeDetected(o.typePtr, CountOf(o).value, Children(o), j);
    assert ChangeSeen(o.typePtr, CountOf(o).value, Children(o), j, id) <==> ObjectHash(o') != ObjectHash(o);
  }

  lemma WithItemDiffers(o: PyObject, j: nat, id: U64)
    requires o.body.SeqBody? && j < |o.body.items|
    ensures DiffersAt(o, WithItem(o, j, id), j, id)
  {
    assert Children(WithItem(o, j, id)) == Children(o)[j := id];
  }

  /** Equal up to the texts that the identity hash leaves out. */
  predicate SameButRepr(r: Rec, r': Rec) {
    match (r, r')
    case (SerObject(m), SerObject(m')) => m.attrs == m'.attrs
    case (SerElems(k, ids, m), SerElems(k', ids', m')) => k == k' && ids == ids' && m.attrs == m'.attrs
    case (SerDict(p, m), SerDict(p', m')) => p == p' && m.attrs == m'.attrs
    case _ => r == r'
  }

  // ------------------------------------------------------------------
  // Distance
  // ------------------------------------------------------------------

  /** Every reference of the graph leads to an object of the graph. */
  ghost predicate ClosedGraph(g: Graph) {
    forall id, c :: id in g && c in Children(g[id]) ==> c in g
  }

  /** The objects at most `k` references away from the roots. */
  ghost function Level(g: Graph, roots: set<U64>, k: nat): set<U64> {
    if k == 0 then roots
    else Level(g, roots, k - 1) + set x, c | x in Level(g, roots, k - 1) && x in g && c in Children(g[x]) :: c
  }

  lemma {:induction false} LevelGrows(g: Graph, roots: set<U64>, j: nat, k: nat)
    requires j <= k
    ensures Level(g, roots, j) <= Level(g, roots, k)
    decreases k
  {
    if j < k {
      LevelGrows(g, roots, j, k - 1);
    }
  }

  /** The last object but one on the way to `id`. */
  lemma LastStep(g: Graph, roots: set<U64>, id: U64, k: nat) returns (x: U64)
    requires id in Level(g, roots, k)
    ensures if k == 0 then id in roots
            else id in Level(g, roots, k - 1) || (x in Level(g, roots, k - 1) && x in g && id in Children(g[x]))
  {
    x := id;
    if k > 0 && id !in Level(g, roots, k - 1) {
      x :| x in Level(g, roots, k - 1) && x in g && id in Children(g[x]);
    }
  }

  lemma {:induction false} LevelInGraph(g: Graph, roots: set<U64>, k: nat, id: U64)
    requires ClosedGraph(g) && roots <= g.Keys && id in Level(g, roots, k)
    ensures id in g
    decreases k
  {
    hide Level, Children;
    var x := LastStep(g, roots, id, k);
    if k > 0 && id in Level(g, roots, k - 1) {
      LevelInGraph(g, roots, k - 1, id);
    }
  }

  /** A distance: in that level and in no earlier one. */
  ghost predicate AtDistance(g: Graph, roots: set<U64>, id: U64, d: nat) {
    id in Level(g, roots, d) && (d > 0 ==> id !in Level(g, roots, d - 1))
  }

  lemma DistanceUnique(g: Graph, roots: set<U64>, id: U64, d: nat, d': nat)
    requires AtDistance(g, roots, id, d) && AtDistance(g, roots, id, d')
    ensures d == d'
  {
    hide Level;
    if d < d' {
      LevelGrows(g, roots, d, d' - 1);
    } else if d' < d {
      LevelGrows(g, roots, d', d - 1);
    }
  }

  /** Whatever can be reached has a distance. */
  lemma {:induction false} HasDistance(g: Graph, roots: set<U64>, id: U64, k: nat) returns (d: nat)
    requires id in Level(g, roots, k)
    ensures d <= k && AtDistance(g, roots, id, d)
    decreases k
  {
    hide Level;
    if k == 0 || id !in Level(g, roots, k - 1) {
      d := k;
    } else {
      d := HasDistance(g, roots, id, k - 1);
    }
  }
}
