/** World-space values: vectors, the triangles the surface extractor emits,
    flattening of triangles into an unwelded vertex list, and the two ways the
    generators place a chunk's centre. */
module Geometry {
  import opened Lattice

  /** Vector3, with exact reals in place of single-precision floats. */
  datatype Vec3 = Vec3(x: real, y: real, z: real)

  /** One triangle of the extractor's append buffer: three corners a, b, c. */
  datatype Triangle = Triangle(a: Vec3, b: Vec3, c: Vec3)

  /** The Triangle indexer: 0 gives a, 1 gives b, and every other index c. */
  function Vertex(t: Triangle, i: int): Vec3 {
    if i == 0 then t.a
    else if i == 1 then t.b
    else t.c
  }

  /** Reading indices 0, 1 and 2 recovers the triangle; any other index reads c. */
  lemma VertexReadsCorners(t: Triangle, i: int)
    ensures Triangle(Vertex(t, 0), Vertex(t, 1), Vertex(t, 2)) == t
    ensures i != 0 && i != 1 ==> Vertex(t, i) == t.c
  {
  }

  /** Each triangle contributes its three corners, in order, none shared. */
  function Flatten(ts: seq<Triangle>): (vs: seq<Vec3>)
    ensures |vs| == 3 * |ts|
  {
    if ts == [] then []
    else [Vertex(ts[0], 0), Vertex(ts[0], 1), Vertex(ts[0], 2)] + Flatten(ts[1..])
  }

  /** Vertex 3i+j of the flattened list is corner j of triangle i. */
  lemma {:induction false} FlattenAt(ts: seq<Triangle>, k: int)
    requires 0 <= k < 3 * |ts|
    ensures Flatten(ts)[k] == Vertex(ts[k / 3], k % 3)
  {
    if k >= 3 {
      FlattenAt(ts[1..], k - 3);
      assert (k - 3) / 3 == k / 3 - 1 && (k - 3) % 3 == k % 3;
    }
  }

  /** Flattening distributes over concatenation, so meshes of consecutive
      triangle runs are consecutive vertex runs. */
  lemma {:induction false} FlattenAppend(s: seq<Triangle>, t: seq<Triangle>)
    ensures Flatten(s + t) == Flatten(s) + Flatten(t)
  {
    if s != [] {
      assert (s + t)[1..] == s[1..] + t;
      FlattenAppend(s[1..], t);
    } else {
      assert s + t == t;
    }
  }

  /** ContinuesMeshGenerator's convention: chunk (0,0,0) is centred on the world origin. */
  function StreamingCentre(c: Coord, boundsSize: real): Vec3 {
    Vec3(c.x as real * boundsSize, c.y as real * boundsSize, c.z as real * boundsSize)
  }

  /** EditorMeshGenerator's convention: the numChunks block is centred on the world origin. */
  function BatchAxis(c: int, n: int, boundsSize: real): real {
    -(n as real * boundsSize) / 2.0 + c as real * boundsSize + boundsSize / 2.0
  }

  function BatchCentre(c: Coord, numChunks: Coord, boundsSize: real): Vec3 {
    Vec3(BatchAxis(c.x, numChunks.x, boundsSize),
         BatchAxis(c.y, numChunks.y, boundsSize),
         BatchAxis(c.z, numChunks.z, boundsSize))
  }

  /** Mirror chunks c and n-1-c of the batch block have opposite centres. */
  lemma BatchAxisSymmetric(c: int, n: int, b: real)
    ensures BatchAxis(c, n, b) + BatchAxis(n - 1 - c, n, b) == 0.0
  {
    assert (n - 1 - c) as real * b == n as real * b - b - c as real * b;
  }

  lemma BatchCentreSymmetric(c: Coord, numChunks: Coord, b: real)
    ensures var m := Coord(numChunks.x - 1 - c.x, numChunks.y - 1 - c.y, numChunks.z - 1 - c.z);
            var p, q := BatchCentre(c, numChunks, b), BatchCentre(m, numChunks, b);
            p.x + q.x == 0.0 && p.y + q.y == 0.0 && p.z + q.z == 0.0
  {
    BatchAxisSymmetric(c.x, numChunks.x, b);
    BatchAxisSymmetric(c.y, numChunks.y, b);
    BatchAxisSymmetric(c.z, numChunks.z, b);
  }

  /** Neighbouring chunks of either convention are one boundsSize apart, so cubes of
      side boundsSize around the centres tile space. */
  lemma CentresOneCellApart(c: int, n: int, b: real)
    ensures BatchAxis(c + 1, n, b) - BatchAxis(c, n, b) == b
    ensures (c + 1) as real * b - c as real * b == b
  {
  }

  /** The two conventions differ by the same shift for every chunk: half the block,
      less half a chunk. */
  lemma BatchIsShiftedStreaming(c: Coord, numChunks: Coord, b: real)
    ensures BatchCentre(c, numChunks, b).x == StreamingCentre(c, b).x - (numChunks.x as real * b) / 2.0 + b / 2.0
    ensures BatchCentre(c, numChunks, b).y == StreamingCentre(c, b).y - (numChunks.y as real * b) / 2.0 + b / 2.0
    ensures BatchCentre(c, numChunks, b).z == StreamingCentre(c, b).z - (numChunks.z as real * b) / 2.0 + b / 2.0
  {
  }
}
