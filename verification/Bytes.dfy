/** Bytes, little-endian words, and what it means for a byte string to sit at a position of an image. */
module Bytes {

  type Byte = x: int | 0 <= x < 0x100
  type U32 = x: int | 0 <= x < 0x1_0000_0000
  type U64 = x: int | 0 <= x < 0x1_0000_0000_0000_0000

  /** A string whose length survives the cast to 32 bits that every length prefix goes through. */
  type Str = s: seq<Byte> | |s| < 0x1_0000_0000

  function Pow2(n: nat): (r: nat)
    ensures r > 0
  {
    if n == 0 then 1 else 2 * Pow2(n - 1)
  }

  function Pow256(n: nat): (r: nat)
    ensures r > 0
  {
    if n == 0 then 1 else 256 * Pow256(n - 1)
  }

  /** The low `width` bytes of `n`, least significant first. */
  function LE(n: nat, width: nat): (s: seq<Byte>)
    ensures |s| == width
  {
    if width == 0 then [] else [n % 256] + LE(n / 256, width - 1)
  }

  lemma {:induction false} LEZero(width: nat)
    ensures forall i :: 0 <= i < width ==> LE(0, width)[i] == 0
  {
    if width > 0 {
      LEZero(width - 1);
    }
  }

  function FromLE(s: seq<Byte>): nat {
    if s == [] then 0 else s[0] + 256 * FromLE(s[1..])
  }

  lemma {:induction false} LERoundTrip(n: nat, width: nat)
    requires n < Pow256(width)
    ensures FromLE(LE(n, width)) == n
  {
    if width > 0 {
      LERoundTrip(n / 256, width - 1);
      assert LE(n, width)[1..] == LE(n / 256, width - 1);
    }
  }

  lemma PowersOf256()
    ensures Pow256(1) == 0x100
    ensures Pow256(4) == 0x1_0000_0000
    ensures Pow256(8) == 0x1_0000_0000_0000_0000
  {
    assert Pow256(2) == 0x1_0000;
    assert Pow256(4) == 256 * 256 * Pow256(2);
    assert Pow256(6) == 256 * 256 * Pow256(4);
    assert Pow256(8) == 256 * 256 * Pow256(6);
  }

  function U32Bytes(n: U32): (s: seq<Byte>)
    ensures |s| == 4
  {
    LE(n, 4)
  }

  function U64Bytes(n: U64): (s: seq<Byte>)
    ensures |s| == 8
  {
    LE(n, 8)
  }

  lemma WordRoundTrip(n: nat)
    ensures n < 0x1_0000_0000 ==> FromLE(U32Bytes(n)) == n
    ensures n < 0x1_0000_0000_0000_0000 ==> FromLE(U64Bytes(n)) == n
  {
    PowersOf256();
    if n < 0x1_0000_0000 {
      LERoundTrip(n, 4);
    }
    if n < 0x1_0000_0000_0000_0000 {
      LERoundTrip(n, 8);
    }
  }

  // ------------------------------------------------------------------
  // Positions in an image
  // ------------------------------------------------------------------

  /** `bytes` are the contents of `img` from `pos` on. */
  ghost predicate At(img: seq<Byte>, pos: int, bytes: seq<Byte>) {
    0 <= pos && pos + |bytes| <= |img| && img[pos..pos + |bytes|] == bytes
  }

  /** The two images agree on the positions `lo` up to but not including `hi`. */
  ghost predicate SameOn(img: seq<Byte>, img': seq<Byte>, lo: int, hi: int) {
    && 0 <= lo <= hi <= |img| && hi <= |img'|
    && forall i :: lo <= i < hi ==> img[i] == img'[i]
  }

  lemma AtSame(img: seq<Byte>, img': seq<Byte>, lo: int, hi: int, pos: int, bytes: seq<Byte>)
    requires SameOn(img, img', lo, hi)
    requires At(img, pos, bytes) && lo <= pos && pos + |bytes| <= hi
    ensures At(img', pos, bytes)
  {
    forall k | 0 <= k < |bytes| ensures img'[pos + k] == bytes[k] {
      assert img[pos..pos + |bytes|][k] == img[pos + k];
    }
  }

  lemma AtBounds(img: seq<Byte>, pos: int, bytes: seq<Byte>)
    requires At(img, pos, bytes)
    ensures 0 <= pos && pos + |bytes| <= |img|
  {
  }

  lemma AtSplit(img: seq<Byte>, pos: int, a: seq<Byte>, b: seq<Byte>)
    ensures At(img, pos, a + b) <==> At(img, pos, a) && At(img, pos + |a|, b)
  {
    if 0 <= pos && pos + |a| + |b| <= |img| {
      var s := img[pos..pos + |a| + |b|];
      assert s[..|a|] == img[pos..pos + |a|];
      assert s[|a|..] == img[pos + |a|..pos + |a| + |b|];
      assert (a + b)[..|a|] == a && (a + b)[|a|..] == b;
      assert s == s[..|a|] + s[|a|..];
    }
  }

  lemma AtWord32(img: seq<Byte>, pos: int, n: U32)
    requires At(img, pos, U32Bytes(n))
    ensures FromLE(img[pos..pos + 4]) == n
  {
    WordRoundTrip(n);
  }

  lemma AtWord64(img: seq<Byte>, pos: int, n: U64)
    requires At(img, pos, U64Bytes(n))
    ensures FromLE(img[pos..pos + 8]) == n
  {
    WordRoundTrip(n);
  }

  // ------------------------------------------------------------------
  // Consecutive encodings
  // ------------------------------------------------------------------

  /** The encodings of `xs`, one after the other. */
  function Cat<T>(f: T -> seq<Byte>, xs: seq<T>): seq<Byte> {
    if xs == [] then [] else Cat(f, xs[..|xs| - 1]) + f(xs[|xs| - 1])
  }

  lemma CatPush<T>(f: T -> seq<Byte>, xs: seq<T>, i: nat)
    requires i < |xs|
    ensures Cat(f, xs[..i + 1]) == Cat(f, xs[..i]) + f(xs[i])
  {
    assert xs[..i + 1][..i] == xs[..i];
  }

  lemma {:induction false} CatPrefix<T>(f: T -> seq<Byte>, xs: seq<T>, i: nat)
    requires i <= |xs|
    ensures Cat(f, xs[..i]) <= Cat(f, xs)
    decreases |xs|
  {
    if i == |xs| {
      assert xs[..i] == xs;
    } else {
      var n := |xs| - 1;
      CatPrefix(f, xs[..n], i);
      assert xs[..n][..i] == xs[..i];
    }
  }

  /** Where the i-th of a run of encodings sits, and that the next one starts where it ends. */
  lemma CatAt<T>(img: seq<Byte>, pos: int, f: T -> seq<Byte>, xs: seq<T>, i: nat)
    requires At(img, pos, Cat(f, xs)) && i < |xs|
    ensures At(img, pos + |Cat(f, xs[..i])|, f(xs[i]))
    ensures |Cat(f, xs[..i + 1])| == |Cat(f, xs[..i])| + |f(xs[i])|
    ensures |Cat(f, xs[..i + 1])| <= |Cat(f, xs)|
    ensures xs[..i + 1] == xs[..i] + [xs[i]]
  {
    CatPush(f, xs, i);
    CatPrefix(f, xs, i + 1);
    var a := Cat(f, xs[..i + 1]);
    var b := Cat(f, xs)[|a|..];
    assert a + b == Cat(f, xs);
    AtSplit(img, pos, a, b);
    AtSplit(img, pos, Cat(f, xs[..i]), f(xs[i]));
  }

  /** Encodings of one fixed size are found by multiplication. */
  lemma {:induction false} CatFixed<T(!new)>(f: T -> seq<Byte>, xs: seq<T>, size: nat)
    requires forall x :: |f(x)| == size
    ensures |Cat(f, xs)| == size * |xs|
  {
    if xs != [] {
      var n := |xs| - 1;
      CatFixed(f, xs[..n], size);
      assert |Cat(f, xs)| == |Cat(f, xs[..n])| + size;
      assert size * |xs| == size * n + size;
    }
  }

  /** If every encoding has at least `size` bytes, a run of them bounds their number. */
  lemma {:induction false} CatAtLeast<T(!new)>(f: T -> seq<Byte>, xs: seq<T>, size: nat)
    requires forall x :: |f(x)| >= size
    ensures |Cat(f, xs)| >= size * |xs|
  {
    if xs != [] {
      var n := |xs| - 1;
      CatAtLeast(f, xs[..n], size);
      assert |Cat(f, xs)| >= |Cat(f, xs[..n])| + size;
      assert size * |xs| == size * n + size;
    }
  }
}
