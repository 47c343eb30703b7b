/** Integer lattice of chunk coordinates, the x-outer/y/z-inner enumeration
    of a rectangular block of coordinates that both generators' triple loops
    produce, and the float-to-int conversions (Mathf.CeilToInt,
    Mathf.RoundToInt) stated on exact reals. */
module Lattice {

  /** Vector3Int: a chunk's position in the lattice of cubes of side boundsSize. */
  datatype Coord = Coord(x: int, y: int, z: int) {
    function Plus(o: Coord): Coord {
      Coord(x + o.x, y + o.y, z + o.z)
    }
  }

  /** No element occurs twice. Stated element by element, so that the verifier
      unfolds it one step at a time; DistinctAt and DistinctByIndex give the
      pairwise form. */
  predicate Distinct<T(==)>(s: seq<T>) {
    s == [] || (s[0] !in s[1..] && Distinct(s[1..]))
  }

  lemma {:induction false} DistinctAt<T>(s: seq<T>, i: int, j: int)
    requires Distinct(s) && 0 <= i < j < |s|
    ensures s[i] != s[j]
  {
    if i == 0 {
      assert s[j] == s[1..][j - 1];
    } else {
      DistinctAt(s[1..], i - 1, j - 1);
    }
  }

  lemma {:induction false} DistinctByIndex<T>(s: seq<T>)
    requires forall i, j :: 0 <= i < j < |s| ==> s[i] != s[j]
    ensures Distinct(s)
  {
    if s != [] {
      var t := s[1..];
      forall i, j | 0 <= i < j < |t|
        ensures t[i] != t[j]
      {
        assert t[i] == s[i + 1] && t[j] == s[j + 1];
      }
      DistinctByIndex(t);
      forall k | 0 <= k < |t|
        ensures t[k] != s[0]
      {
        assert t[k] == s[k + 1];
      }
    }
  }

  /** Appending an element that does not occur keeps a sequence distinct. */
  lemma DistinctSnoc<T>(s: seq<T>, x: T)
    requires Distinct(s) && x !in s
    ensures Distinct(s + [x])
  {
    var t := s + [x];
    forall i, j | 0 <= i < j < |t|
      ensures t[i] != t[j]
    {
      if j < |s| {
        DistinctAt(s, i, j);
      } else {
        assert t[i] == s[i];
      }
    }
    DistinctByIndex(t);
  }

  /** The parts of a distinct concatenation are distinct. */
  lemma DistinctParts<T>(s: seq<T>, t: seq<T>)
    requires Distinct(s + t)
    ensures Distinct(s) && Distinct(t)
  {
    forall i, j | 0 <= i < j < |s|
      ensures s[i] != s[j]
    {
      DistinctAt(s + t, i, j);
    }
    DistinctByIndex(s);
    forall i, j | 0 <= i < j < |t|
      ensures t[i] != t[j]
    {
      DistinctAt(s + t, |s| + i, |s| + j);
    }
    DistinctByIndex(t);
  }

  /** The two halves of a distinct sequence share no element. */
  lemma DistinctApart<T>(s: seq<T>, t: seq<T>)
    requires Distinct(s + t)
    ensures forall x | x in s :: x !in t
  {
    forall i, j | 0 <= i < |s| && 0 <= j < |t|
      ensures s[i] != t[j]
    {
      DistinctAt(s + t, i, |s| + j);
    }
  }

  lemma {:induction false} DistinctCount<T>(s: seq<T>, x: T)
    requires Distinct(s)
    ensures multiset(s)[x] <= 1
  {
    if s != [] {
      assert s == [s[0]] + s[1..];
      DistinctCount(s[1..], x);
    }
  }

  /** Distinctness depends only on the multiset of elements, so it survives any
      rearrangement (a removal paired with an enqueue, say). */
  lemma DistinctPermutation<T>(a: seq<T>, b: seq<T>)
    requires Distinct(a) && multiset(a) == multiset(b)
    ensures Distinct(b)
  {
    forall i, j | 0 <= i < j < |b|
      ensures b[i] != b[j]
    {
      if b[i] == b[j] {
        assert b == b[..j] + b[j..];
        assert b[i] in multiset(b[..j]) && b[j] in multiset(b[j..]);
        assert multiset(b)[b[i]] >= 2;
        DistinctCount(a, b[i]);
      }
    }
    DistinctByIndex(b);
  }

  /** Number of iterations of `for (i = 0; i < v; i++)`. */
  function Extent(v: int): nat {
    if v > 0 then v else 0
  }

  /** Number of iterations of the triple loop over 0 <= x < n.x, 0 <= y < n.y, 0 <= z < n.z. */
  function BlockSize(n: Coord): nat {
    Extent(n.x) * Extent(n.y) * Extent(n.z)
  }

  predicate InBlock(n: Coord, c: Coord) {
    0 <= c.x < n.x && 0 <= c.y < n.y && 0 <= c.z < n.z
  }

  /** The position at which the triple loop (x outer, z inner) visits c. */
  function BlockIndex(n: Coord, c: Coord): int {
    (c.x * Extent(n.y) + c.y) * Extent(n.z) + c.z
  }

  /** The coordinate the triple loop visits at step k. */
  function BlockCoord(n: Coord, k: int): Coord {
    var ny, nz := Extent(n.y), Extent(n.z);
    if ny == 0 || nz == 0 then Coord(0, 0, 0)
    else
      var q := k / nz;
      Coord(q / ny, q % ny, k % nz)
  }

  /** Every coordinate of the block, in the order the triple loop visits them. */
  function Block(n: Coord): (b: seq<Coord>)
    ensures |b| == BlockSize(n)
  {
    seq(BlockSize(n), k => BlockCoord(n, k))
  }

  lemma MulLeftMono(a: int, b: int, d: int)
    requires a <= b && d >= 0
    ensures a * d <= b * d
  {
  }

  lemma MulStep(a: int, b: int, d: int)
    requires a < b && d >= 0
    ensures a * d + d <= b * d
  {
    MulLeftMono(a + 1, b, d);
  }

  lemma MulSucc(a: int, d: int)
    ensures (a + 1) * d == a * d + d
  {
  }

  /** Row-major steps regrouped: a planes of s * s, then b rows of s. */
  lemma MulRows(a: int, b: int, s: int)
    ensures (a * s + b) * s == a * (s * s) + b * s
  {
    calc {
      (a * s + b) * s;
      a * s * s + b * s;
    }
  }

  /** Euclidean division is determined by quotient and remainder. */
  lemma DivModUnique(a: int, d: int, q: int, r: int)
    requires d > 0 && 0 <= r < d && a == q * d + r
    ensures a / d == q && a % d == r
  {
    var q', r' := a / d, a % d;
    assert a == q' * d + r';
    if q > q' {
      MulStep(q', q, d);
    } else if q < q' {
      MulStep(q, q', d);
    }
  }

  lemma DivBelow(k: int, a: int, d: int)
    requires d > 0 && 0 <= k < a * d
    ensures 0 <= k / d < a
  {
    if k / d >= a {
      MulLeftMono(a, k / d, d);
    }
  }

  /** Visiting c happens at a step inside the block, and that step yields c. */
  lemma {:induction false} BlockAt(n: Coord, c: Coord)
    requires InBlock(n, c)
    ensures 0 <= BlockIndex(n, c) < BlockSize(n)
    ensures Block(n)[BlockIndex(n, c)] == c
  {
    var ny, nz := Extent(n.y), Extent(n.z);
    var q := c.x * ny + c.y;
    var k := q * nz + c.z;
    MulLeftMono(0, c.x, ny);
    MulLeftMono(c.x + 1, Extent(n.x), ny);
    assert 0 <= q < Extent(n.x) * ny;
    MulLeftMono(q + 1, Extent(n.x) * ny, nz);
    MulLeftMono(0, q, nz);
    assert 0 <= k < BlockSize(n);
    DivModUnique(k, nz, q, c.z);
    DivModUnique(q, ny, c.x, c.y);
  }

  /** Step k of the block is a coordinate of the block, visited at step k only. */
  lemma {:induction false} BlockInverse(n: Coord, k: nat)
    requires k < BlockSize(n)
    ensures InBlock(n, Block(n)[k])
    ensures BlockIndex(n, Block(n)[k]) == k
  {
    var nx, ny, nz := Extent(n.x), Extent(n.y), Extent(n.z);
    assert ny > 0 && nz > 0;
    var q := k / nz;
    DivBelow(k, nx * ny, nz);
    DivBelow(q, nx, ny);
    assert k == q * nz + k % nz;
    assert q == (q / ny) * ny + q % ny;
  }

  /** The block holds exactly the coordinates with 0 <= c < n on every axis. */
  lemma BlockMembers(n: Coord, c: Coord)
    ensures c in Block(n) <==> InBlock(n, c)
  {
    if InBlock(n, c) {
      BlockAt(n, c);
    }
    if c in Block(n) {
      var k :| 0 <= k < |Block(n)| && Block(n)[k] == c;
      BlockInverse(n, k);
    }
  }

  /** The triple loop never visits a coordinate twice. */
  lemma BlockDistinct(n: Coord)
    ensures Distinct(Block(n))
  {
    forall i, j | 0 <= i < j < |Block(n)|
      ensures Block(n)[i] != Block(n)[j]
    {
      BlockInverse(n, i);
      BlockInverse(n, j);
    }
    DistinctByIndex(Block(n));
  }

  /** Mathf.CeilToInt on an exact real: the least integer not below r. */
  function CeilToInt(r: real): (n: int)
    ensures r <= n as real < r + 1.0
  {
    -((-r).Floor)
  }

  /** Mathf.RoundToInt on an exact real: the nearest integer, halves to the even one. */
  function RoundToInt(r: real): (n: int)
    ensures -0.5 <= r - n as real <= 0.5
    ensures (r - n as real == 0.5 || r - n as real == -0.5) ==> n % 2 == 0
  {
    var f := r.Floor;
    var d := r - f as real;
    if d < 0.5 then f
    else if d > 0.5 then f + 1
    else if f % 2 == 0 then f
    else f + 1
  }
}
