/**
 * The identity hash of an object: FNV-1a over its type, its size and some of its children. It decides
 * whether a record written for an earlier snapshot still describes the object.
 */
module Identity {
  import opened Bytes

  const FNV_OFFSET_BASIS: U64 := 14695981039346656037
  const FNV_PRIME := 1099511628211
  const TWO_64 := 0x1_0000_0000_0000_0000

  // ------------------------------------------------------------------
  // Exclusive or, bit by bit
  // ------------------------------------------------------------------

  function Xor(a: nat, b: nat): (r: nat)
    decreases a + b
  {
    if a == 0 && b == 0 then 0 else (if a % 2 == b % 2 then 0 else 1) + 2 * Xor(a / 2, b / 2)
  }

  lemma XorBits(a: nat, b: nat)
    ensures Xor(a, b) % 2 == if a % 2 == b % 2 then 0 else 1
    ensures Xor(a, b) / 2 == Xor(a / 2, b / 2)
  {
    if a != 0 || b != 0 {
      Halves(if a % 2 == b % 2 then 0 else 1, Xor(a / 2, b / 2));
    }
  }

  lemma Halves(bit: nat, high: nat)
    requires bit < 2
    ensures (bit + 2 * high) % 2 == bit && (bit + 2 * high) / 2 == high
  {
  }

  lemma {:induction false} XorUndone(a: nat, b: nat)
    ensures Xor(Xor(a, b), b) == a
    decreases a + b
  {
    if a != 0 || b != 0 {
      XorUndone(a / 2, b / 2);
      XorLift(a, b);
    }
  }

  lemma XorLift(a: nat, b: nat)
    requires Xor(Xor(a / 2, b / 2), b / 2) == a / 2
    ensures Xor(Xor(a, b), b) == a
  {
    hide Xor;
    XorBits(a, b);
    XorBits(Xor(a, b), b);
  }

  lemma {:induction false} XorBound(a: nat, b: nat, bits: nat)
    requires a < Pow2(bits) && b < Pow2(bits)
    ensures Xor(a, b) < Pow2(bits)
    decreases bits
  {
    if bits > 0 {
      XorBound(a / 2, b / 2, bits - 1);
    }
  }

  lemma Pow2Of64()
    ensures Pow2(64) == TWO_64
  {
    assert Pow2(8) == 256;
    assert Pow2(16) == 256 * Pow2(8);
    assert Pow2(24) == 256 * Pow2(16);
    assert Pow2(32) == 256 * Pow2(24);
    assert Pow2(40) == 256 * Pow2(32);
    assert Pow2(48) == 256 * Pow2(40);
    assert Pow2(56) == 256 * Pow2(48);
    assert Pow2(64) == 256 * Pow2(56);
  }

  function Xor64(a: U64, b: U64): U64 {
    Pow2Of64();
    XorBound(a, b, 64);
    Xor(a, b)
  }

  // ------------------------------------------------------------------
  // One step of the hash loses nothing
  // ------------------------------------------------------------------

  function Mix(hash: U64, word: U64): U64 {
    Xor64(hash, word) * FNV_PRIME % TWO_64
  }

  lemma MultipleAside(a: U64, m: int)
    ensures (m * TWO_64 + a) % TWO_64 == a
  {
  }

  /** The prime is odd, so multiplying by it modulo 2^64 can be undone. */
  lemma PrimeInvertible(a: U64)
    ensures a * FNV_PRIME % TWO_64 * 0xce965057aff6957b % TWO_64 == a
  {
    var product := a * FNV_PRIME;
    var k, r := product / TWO_64, product % TWO_64;
    assert product == k * TWO_64 + r;
    assert r * 0xce965057aff6957b == (a * 0xce9650590f - k * 0xce965057aff6957b) * TWO_64 + a;
    MultipleAside(a, a * 0xce9650590f - k * 0xce965057aff6957b);
  }

  lemma MixLosesNothing(h: U64, h': U64, word: U64, word': U64)
    requires Mix(h, word) == Mix(h', word')
    ensures Xor64(h, word) == Xor64(h', word')
  {
    PrimeInvertible(Xor64(h, word));
    PrimeInvertible(Xor64(h', word'));
  }

  lemma MixInjective(h: U64, h': U64, word: U64, word': U64)
    requires h == h' || word == word'
    requires Mix(h, word) == Mix(h', word')
    ensures h == h' && word == word'
  {
    MixLosesNothing(h, h', word, word');
    XorUndone(h, word);
    XorUndone(h', word');
    XorCommutes(h, word);
    XorCommutes(h', word');
    XorUndone(word, h);
    XorUndone(word', h');
  }

  lemma {:induction false} XorCommutes(a: nat, b: nat)
    ensures Xor(a, b) == Xor(b, a)
    decreases a + b
  {
    if a != 0 || b != 0 {
      XorCommutes(a / 2, b / 2);
    }
  }

  // ------------------------------------------------------------------
  // The top bit goes through as it is
  // ------------------------------------------------------------------

  function FlipBit(x: nat, k: nat): nat {
    if x < Pow2(k) then x + Pow2(k) else x - Pow2(k)
  }

  lemma {:induction false} XorFlipsBit(a: nat, b: nat, k: nat)
    requires a < Pow2(k + 1) && b < Pow2(k + 1)
    ensures Xor(FlipBit(a, k), b) == FlipBit(Xor(a, b), k)
    decreases k
  {
    if k > 0 {
      FlippedHalf(a, k);
      FlippedHalf(Xor(a, b), k);
      XorFlipsBit(a / 2, b / 2, k - 1);
      XorBits(a, b);
      XorBits(FlipBit(a, k), b);
      SameHalves(Xor(FlipBit(a, k), b), FlipBit(Xor(a, b), k));
    }
  }

  lemma FlippedHalf(x: nat, k: nat)
    requires k > 0
    ensures FlipBit(x, k) % 2 == x % 2 && FlipBit(x, k) / 2 == FlipBit(x / 2, k - 1)
  {
    assert Pow2(k) == 2 * Pow2(k - 1);
  }

  lemma SameHalves(a: nat, b: nat)
    requires a % 2 == b % 2 && a / 2 == b / 2
    ensures a == b
  {
  }

  const TOP_BIT: U64 := 0x8000_0000_0000_0000

  /** The word that differs in the highest bit alone. */
  function Flipped(x: U64): (y: U64)
    ensures y != x
  {
    if x < TOP_BIT then x + TOP_BIT else x - TOP_BIT
  }

  lemma XorFlips(a: U64, b: U64)
    ensures Xor64(Flipped(a), b) == Flipped(Xor64(a, b)) && Xor64(a, Flipped(b)) == Flipped(Xor64(a, b))
  {
    Pow2Of64();
    assert Pow2(64) == 2 * Pow2(63);
    XorFlipsBit(a, b, 63);
    XorFlipsBit(b, a, 63);
    XorCommutes(a, b);
    XorCommutes(a, Flipped(b));
  }

  /** The prime is odd: the top bit times the prime is the top bit, modulo 2^64. */
  lemma PrimeFlips(x: U64)
    ensures Flipped(x) * FNV_PRIME % TWO_64 == Flipped(x * FNV_PRIME % TWO_64)
  {
    var k, r := x * FNV_PRIME / TWO_64, x * FNV_PRIME % TWO_64;
    assert x * FNV_PRIME == k * TWO_64 + r;
    var m := if x < TOP_BIT then k + FNV_PRIME / 2 else k - FNV_PRIME / 2;
    if x < TOP_BIT {
      assert Flipped(x) * FNV_PRIME == m * TWO_64 + r + TOP_BIT;
      MultipleAside(Flipped(r), if r < TOP_BIT then m else m + 1);
    } else {
      assert Flipped(x) * FNV_PRIME == m * TWO_64 + r - TOP_BIT;
      MultipleAside(Flipped(r), if r < TOP_BIT then m - 1 else m);
    }
  }

  lemma MixFlips(hash: U64, word: U64)
    ensures Mix(Flipped(hash), word) == Flipped(Mix(hash, word))
    ensures Mix(hash, Flipped(word)) == Flipped(Mix(hash, word))
  {
    XorFlips(hash, word);
    PrimeFlips(Xor64(hash, word));
  }

  // ------------------------------------------------------------------
  // The whole hash
  // ------------------------------------------------------------------

  function MixAll(hash: U64, words: seq<U64>): U64 {
    if words == [] then hash else Mix(MixAll(hash, words[..|words| - 1]), words[|words| - 1])
  }

  const HEAD_CHILDREN := 32
  const TAIL_CHILDREN := 8

  /** Up to 32 children go in as they are; of more, the first 32 and the last 8. */
  function Mixed(childIds: seq<U64>): seq<U64> {
    if |childIds| <= HEAD_CHILDREN then childIds
    else childIds[..HEAD_CHILDREN] + childIds[|childIds| - TAIL_CHILDREN..]
  }

  function IdentityHash(typePtr: U64, size: U64, childIds: seq<U64>): U64 {
    MixAll(FNV_OFFSET_BASIS, [typePtr, size] + Mixed(childIds))
  }

  lemma MixAllSnoc(hash: U64, words: seq<U64>, w: U64)
    ensures MixAll(hash, words + [w]) == Mix(MixAll(hash, words), w)
  {
    assert (words + [w])[..|words|] == words;
  }

  lemma MixNone(hash: U64)
    ensures MixAll(hash, []) == hash
  {
  }

  method ComputeIdentityHash(typePtr: U64, size: U64, childIds: seq<U64>) returns (hash: U64)
    ensures hash == IdentityHash(typePtr, size, childIds)
  {
    hide Xor64, MixAll;
    MixNone(FNV_OFFSET_BASIS);
    hash := FNV_OFFSET_BASIS;
    hash := Xor64(hash, typePtr);
    hash := hash * FNV_PRIME % TWO_64;
    hash := Xor64(hash, size);
    hash := hash * FNV_PRIME % TWO_64;
    ghost var front := [typePtr, size];
    MixAllSnoc(FNV_OFFSET_BASIS, [], typePtr);
    MixAllSnoc(FNV_OFFSET_BASIS, [typePtr], size);
    assert [] + [typePtr] == [typePtr] && [typePtr] + [size] == front;
    var limit := if |childIds| < HEAD_CHILDREN then |childIds| else HEAD_CHILDREN;
    assert front + childIds[..0] == front;
    for i := 0 to limit
      invariant hash == MixAll(FNV_OFFSET_BASIS, front + childIds[..i])
    {
      MixAllSnoc(FNV_OFFSET_BASIS, front + childIds[..i], childIds[i]);
      assert front + childIds[..i] + [childIds[i]] == front + childIds[..i + 1];
      hash := Xor64(hash, childIds[i]);
      hash := hash * FNV_PRIME % TWO_64;
    }
    if |childIds| > HEAD_CHILDREN {
      var tailStart := |childIds| - TAIL_CHILDREN;
      ghost var head := front + childIds[..limit];
      assert head + childIds[tailStart..tailStart] == head;
      for i := tailStart to |childIds|
        invariant hash == MixAll(FNV_OFFSET_BASIS, head + childIds[tailStart..i])
      {
        MixAllSnoc(FNV_OFFSET_BASIS, head + childIds[tailStart..i], childIds[i]);
        assert head + childIds[tailStart..i] + [childIds[i]] == head + childIds[tailStart..i + 1];
        hash := Xor64(hash, childIds[i]);
        hash := hash * FNV_PRIME % TWO_64;
      }
      assert head + childIds[tailStart..] == front + Mixed(childIds);
      assert childIds[tailStart..|childIds|] == childIds[tailStart..];
    } else {
      assert childIds[..limit] == childIds;
    }
  }

  // ------------------------------------------------------------------
  // What it detects
  // ------------------------------------------------------------------

  /** Changing one mixed word changes the hash. */
  lemma {:induction false} OneWordMatters(hash: U64, words: seq<U64>, i: nat, w: U64)
    requires i < |words| && w != words[i]
    ensures MixAll(hash, words[i := w]) != MixAll(hash, words)
    decreases |words|
  {
    var n := |words| - 1;
    var changed := words[i := w];
    if MixAll(hash, changed) == MixAll(hash, words) {
      if i == n {
        assert changed[..n] == words[..n];
        MixInjective(MixAll(hash, changed[..n]), MixAll(hash, words[..n]), changed[n], words[n]);
      } else {
        assert changed[..n] == words[..n][i := w];
        OneWordMatters(hash, words[..n], i, w);
        MixInjective(MixAll(hash, changed[..n]), MixAll(hash, words[..n]), changed[n], words[n]);
      }
    }
  }

  lemma TypeChangeDetected(typePtr: U64, typePtr': U64, size: U64, childIds: seq<U64>)
    requires typePtr != typePtr'
    ensures IdentityHash(typePtr, size, childIds) != IdentityHash(typePtr', size, childIds)
  {
    var words := [typePtr, size] + Mixed(childIds);
    assert words[0 := typePtr'] == [typePtr', size] + Mixed(childIds);
    OneWordMatters(FNV_OFFSET_BASIS, words, 0, typePtr');
  }

  lemma SizeChangeDetected(typePtr: U64, size: U64, size': U64, childIds: seq<U64>)
    requires size != size'
    ensures IdentityHash(typePtr, size, childIds) != IdentityHash(typePtr, size', childIds)
  {
    var words := [typePtr, size] + Mixed(childIds);
    assert words[1 := size'] == [typePtr, size'] + Mixed(childIds);
    OneWordMatters(FNV_OFFSET_BASIS, words, 1, size');
  }

  /** How often a child goes into the hash: twice where head and tail overlap, never between them. */
  function TimesMixed(count: nat, j: nat): nat
    requires j < count
  {
    if count <= HEAD_CHILDREN then 1
    else (if j < HEAD_CHILDREN then 1 else 0) + (if j >= count - TAIL_CHILDREN then 1 else 0)
  }

  /** The blind spot: a child that is not mixed can change freely. */
  lemma MiddleChildUnseen(typePtr: U64, size: U64, childIds: seq<U64>, j: nat, id: U64)
    requires j < |childIds| && TimesMixed(|childIds|, j) == 0
    ensures IdentityHash(typePtr, size, childIds[j := id]) == IdentityHash(typePtr, size, childIds)
  {
    var changed := childIds[j := id];
    assert changed[..HEAD_CHILDREN] == childIds[..HEAD_CHILDREN];
    assert changed[|childIds| - TAIL_CHILDREN..] == childIds[|childIds| - TAIL_CHILDREN..];
  }

  /** Where a child that is mixed once stands among the mixed ones. */
  function PlaceOf(count: nat, j: nat): nat
    requires j < count && TimesMixed(count, j) == 1
  {
    if j < HEAD_CHILDREN || count <= HEAD_CHILDREN then j else HEAD_CHILDREN + TAIL_CHILDREN - (count - j)
  }

  lemma MixedAt(childIds: seq<U64>, j: nat, id: U64)
    requires j < |childIds| && TimesMixed(|childIds|, j) == 1
    ensures PlaceOf(|childIds|, j) < |Mixed(childIds)| && Mixed(childIds)[PlaceOf(|childIds|, j)] == childIds[j]
    ensures Mixed(childIds[j := id]) == Mixed(childIds)[PlaceOf(|childIds|, j) := id]
  {
    var n, changed := |childIds|, childIds[j := id];
    if n > HEAD_CHILDREN {
      var head, tail := childIds[..HEAD_CHILDREN], childIds[n - TAIL_CHILDREN..];
      if j < HEAD_CHILDREN {
        assert changed[..HEAD_CHILDREN] == head[j := id] && changed[n - TAIL_CHILDREN..] == tail;
      } else {
        assert changed[..HEAD_CHILDREN] == head && changed[n - TAIL_CHILDREN..] == tail[j - (n - TAIL_CHILDREN) := id];
      }
    }
  }

  /** Flipping the top bit of one mixed word flips the top bit of the hash, wherever the word is. */
  lemma {:induction false} OneWordFlips(hash: U64, words: seq<U64>, i: nat)
    requires i < |words|
    ensures MixAll(hash, words[i := Flipped(words[i])]) == Flipped(MixAll(hash, words))
    decreases |words|
  {
    hide Mix, Flipped;
    var n := |words| - 1;
    var changed := words[i := Flipped(words[i])];
    if i == n {
      assert changed[..n] == words[..n];
      MixFlips(MixAll(hash, words[..n]), words[n]);
    } else {
      assert changed[..n] == words[..n][i := Flipped(words[i])];
      OneWordFlips(hash, words[..n], i);
      MixFlips(MixAll(hash, words[..n]), words[n]);
    }
  }

  lemma MixedTwiceAt(childIds: seq<U64>, j: nat, id: U64)
    requires j < |childIds| && TimesMixed(|childIds|, j) == 2
    ensures
      var again, words := HEAD_CHILDREN + TAIL_CHILDREN - (|childIds| - j), Mixed(childIds);
      && j < again < |words| && words[j] == words[again] == childIds[j]
      && Mixed(childIds[j := id]) == words[j := id][again := id]
  {
    var n, changed := |childIds|, childIds[j := id];
    assert changed[..HEAD_CHILDREN] == childIds[..HEAD_CHILDREN][j := id];
    assert changed[n - TAIL_CHILDREN..] == childIds[n - TAIL_CHILDREN..][j - (n - TAIL_CHILDREN) := id];
  }

  /** What is mixed twice cancels out in the top bit. */
  lemma TopBitUnseen(typePtr: U64, size: U64, childIds: seq<U64>, j: nat)
    requires j < |childIds| && TimesMixed(|childIds|, j) == 2
    ensures IdentityHash(typePtr, size, childIds[j := Flipped(childIds[j])]) == IdentityHash(typePtr, size, childIds)
  {
    hide Mixed, MixAll, Flipped, TimesMixed;
    var id := Flipped(childIds[j]);
    MixedTwiceAt(childIds, j, id);
    var words, again := [typePtr, size] + Mixed(childIds), 2 + HEAD_CHILDREN + TAIL_CHILDREN - (|childIds| - j);
    var once := words[2 + j := id];
    assert [typePtr, size] + Mixed(childIds[j := id]) == once[again := id];
    OneWordFlips(FNV_OFFSET_BASIS, words, 2 + j);
    OneWordFlips(FNV_OFFSET_BASIS, once, again);
    FlippedTwice(MixAll(FNV_OFFSET_BASIS, words));
  }

  lemma FlippedTwice(x: U64)
    ensures Flipped(Flipped(x)) == x
  {
  }

  lemma OnceIsSeen(typePtr: U64, size: U64, childIds: seq<U64>, j: nat, id: U64)
    requires j < |childIds| && id != childIds[j] && TimesMixed(|childIds|, j) == 1
    ensures IdentityHash(typePtr, size, childIds[j := id]) != IdentityHash(typePtr, size, childIds)
  {
    hide Mixed, MixAll;
    MixedAt(childIds, j, id);
    var words, at := [typePtr, size] + Mixed(childIds), 2 + PlaceOf(|childIds|, j);
    assert [typePtr, size] + Mixed(childIds[j := id]) == words[at := id];
    OneWordMatters(FNV_OFFSET_BASIS, words, at, id);
  }

  ghost predicate ChangeSeen(typePtr: U64, size: U64, childIds: seq<U64>, j: nat, id: U64)
    requires j < |childIds|
  {
    IdentityHash(typePtr, size, childIds[j := id]) != IdentityHash(typePtr, size, childIds)
  }

  /**
   * No change of a child goes unseen exactly if that child is mixed once. One that is not mixed can change
   * freely, and of one that is mixed twice the top bit can.
   */
  lemma ChildChangeDetected(typePtr: U64, size: U64, childIds: seq<U64>, j: nat)
    requires j < |childIds|
    ensures (forall id: U64 :: id != childIds[j] ==> ChangeSeen(typePtr, size, childIds, j, id))
       <==> TimesMixed(|childIds|, j) == 1
    ensures TimesMixed(|childIds|, j) == 0 ==> forall id :: !ChangeSeen(typePtr, size, childIds, j, id)
    ensures TimesMixed(|childIds|, j) == 2 ==> !ChangeSeen(typePtr, size, childIds, j, Flipped(childIds[j]))
  {
    hide IdentityHash;
    if TimesMixed(|childIds|, j) == 1 {
      forall id: U64 | id != childIds[j] ensures ChangeSeen(typePtr, size, childIds, j, id) {
        OnceIsSeen(typePtr, size, childIds, j, id);
      }
    } else if TimesMixed(|childIds|, j) == 2 {
      TopBitUnseen(typePtr, size, childIds, j);
      assert !ChangeSeen(typePtr, size, childIds, j, Flipped(childIds[j]));
    } else {
      forall id ensures !ChangeSeen(typePtr, size, childIds, j, id) {
        MiddleChildUnseen(typePtr, size, childIds, j, id);
      }
      assert !ChangeSeen(typePtr, size, childIds, j, Flipped(childIds[j]));
    }
  }

  // ------------------------------------------------------------------
  // Strings and bytes go by Python's own hash
  // ------------------------------------------------------------------

  function TextHash(pyHash: U64, typePtr: U64): U64 {
    Xor64(pyHash, typePtr * FNV_PRIME % TWO_64)
  }

  /** Texts of one type collide only if Python hashes them alike, and equal hashes of two types never do. */
  lemma TextHashInjective(pyHash: U64, pyHash': U64, typePtr: U64, typePtr': U64)
    requires pyHash == pyHash' || typePtr == typePtr'
    requires TextHash(pyHash, typePtr) == TextHash(pyHash', typePtr')
    ensures pyHash == pyHash' && typePtr == typePtr'
  {
    var t, t' := typePtr * FNV_PRIME % TWO_64, typePtr' * FNV_PRIME % TWO_64;
    PrimeInvertible(typePtr);
    PrimeInvertible(typePtr');
    XorUndone(pyHash, t);
    XorUndone(pyHash', t');
    XorCommutes(pyHash, t);
    XorCommutes(pyHash', t');
    XorUndone(t, pyHash);
    XorUndone(t', pyHash');
  }
}
