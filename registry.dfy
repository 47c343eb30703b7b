module ChunkRegistry {
  import opened Lattice
  import opened Geometry
  import opened MeshGeneration

  function Min(a: int, b: int): int {
    if a <= b then a else b
  }

  /** The coordinates the chunks of s carry. */
  ghost function CoordsOf(s: seq<Chunk>): set<Coord>
    reads s
  {
    set ch | ch in s :: ch.coord
  }

  /** The dictionary maps exactly the coordinates of the listed chunks, each to the
      chunk that carries it. */
  ghost predicate Registry(chunks: seq<Chunk>, entries: map<Coord, Chunk>)
    reads chunks
  {
    && (forall i :: 0 <= i < |chunks| ==> chunks[i].coord in entries && entries[chunks[i].coord] == chunks[i])
    && (forall c :: c in entries ==> entries[c] in chunks && entries[c].coord == c)
  }

  /** The mesh a chunk at `coord` gets: the extraction pipeline's output for
      the chunk's centre, flattened, with the identity index array. */
  function MeshVertices(coord: Coord, kernel: Vec3 -> seq<Triangle>, boundsSize: real): seq<Vec3> {
    Flatten(kernel(StreamingCentre(coord, boundsSize)))
  }

  function MeshIndices(coord: Coord, kernel: Vec3 -> seq<Triangle>, boundsSize: real): seq<int> {
    seq(3 * |kernel(StreamingCentre(coord, boundsSize))|, k => k)
  }

  /** Chunk j carries coordinate j and the mesh built for it. */
  ghost predicate Meshed(chunks: seq<Chunk>, coords: seq<Coord>, kernel: Vec3 -> seq<Triangle>, boundsSize: real)
    reads chunks
  {
    && |chunks| == |coords|
    && forall j :: 0 <= j < |coords| ==>
         && chunks[j].coord == coords[j]
         && chunks[j].vertices == MeshVertices(coords[j], kernel, boundsSize)
         && chunks[j].triangles == MeshIndices(coords[j], kernel, boundsSize)
  }

  /** The first chunks placed are the pool's, taken from its front; what is
      left of the pool is the rest of it. */
  predicate PoolFront(p1: seq<Chunk>, placed: seq<Chunk>, pool: seq<Chunk>) {
    var n := Min(|placed|, |p1|);
    placed[..n] == p1[..n] && pool == p1[n..]
  }

  /** The dictionary holds the keys it started with and the accepted
      coordinates; list, pool and dictionary form a registry. */
  ghost predicate Listing(e1: map<Coord, Chunk>, done: seq<Coord>, list: seq<Chunk>, dict: map<Coord, Chunk>, pool: seq<Chunk>)
    reads list
  {
    && (forall c :: c in dict <==> c in e1 || c in done)
    && Distinct(list + pool) && Registry(list, dict)
  }

  /** The state of the acceptance pass once it has accepted `done`: the list is
      the starting list followed by `placed`, one chunk per accepted coordinate
      carrying that coordinate and its mesh; the first of them are the pool's
      chunks, taken from its front; the dictionary gained exactly the accepted
      coordinates; list, pool and dictionary still form a registry. */
  ghost predicate Placement(gen: MeshGenerator, kernel: Vec3 -> seq<Triangle>,
                            c1: seq<Chunk>, e1: map<Coord, Chunk>, p1: seq<Chunk>, done: seq<Coord>,
                            placed: seq<Chunk>, list: seq<Chunk>, dict: map<Coord, Chunk>, pool: seq<Chunk>)
    reads gen, placed, list
  {
    && list == c1 + placed
    && Meshed(placed, done, kernel, gen.boundsSize)
    && PoolFront(p1, placed, pool)
    && Listing(e1, done, list, dict, pool)
  }

  /** Before the first candidate: nothing placed, the list, dictionary and
      pool are the ones eviction left. */
  lemma PlacementStart(gen: MeshGenerator, kernel: Vec3 -> seq<Triangle>,
                       c1: seq<Chunk>, e1: map<Coord, Chunk>, p1: seq<Chunk>)
    requires Distinct(c1 + p1) && Registry(c1, e1)
    ensures Placement(gen, kernel, c1, e1, p1, [], [], c1, e1, p1)
  {
    assert c1 + [] == c1 && p1[0..] == p1;
  }

  lemma PlacementListing(gen: MeshGenerator, kernel: Vec3 -> seq<Triangle>,
                          c1: seq<Chunk>, e1: map<Coord, Chunk>, p1: seq<Chunk>, done: seq<Coord>,
                          placed: seq<Chunk>, list: seq<Chunk>, dict: map<Coord, Chunk>, pool: seq<Chunk>)
    requires Placement(gen, kernel, c1, e1, p1, done, placed, list, dict, pool)
    ensures Listing(e1, done, list, dict, pool)
  {
  }

  lemma MeshedSnoc(chunks: seq<Chunk>, coords: seq<Coord>, kernel: Vec3 -> seq<Triangle>, boundsSize: real,
                   chunk: Chunk, coord: Coord)
    requires Meshed(chunks, coords, kernel, boundsSize) && chunk.coord == coord
    requires chunk.vertices == MeshVertices(coord, kernel, boundsSize)
    requires chunk.triangles == MeshIndices(coord, kernel, boundsSize)
    ensures Meshed(chunks + [chunk], coords + [coord], kernel, boundsSize)
  {
    var chunks', coords' := chunks + [chunk], coords + [coord];
    forall j | 0 <= j < |coords'|
      ensures chunks'[j].coord == coords'[j]
      ensures chunks'[j].vertices == MeshVertices(coords'[j], kernel, boundsSize)
      ensures chunks'[j].triangles == MeshIndices(coords'[j], kernel, boundsSize)
    {
      if j < |coords| {
        assert chunks'[j] == chunks[j] && coords'[j] == coords[j];
      }
    }
  }

  /** Placing the pool's front chunk, or any chunk once the pool is empty. */
  lemma PoolFrontStep(p1: seq<Chunk>, placed: seq<Chunk>, pool: seq<Chunk>, chunk: Chunk)
    requires PoolFront(p1, placed, pool) && (pool != [] ==> chunk == pool[0])
    ensures PoolFront(p1, placed + [chunk], if pool == [] then [] else pool[1..])
  {
    var placed' := placed + [chunk];
    var n := Min(|placed|, |p1|);
    if pool == [] {
      assert Min(|placed'|, |p1|) == n == |p1|;
      assert placed'[..n] == placed[..n];
    } else {
      assert Min(|placed'|, |p1|) == n + 1 && p1[n..][1..] == p1[n + 1..];
      assert placed'[..n + 1] == placed[..n] + [p1[n]] == p1[..n + 1];
    }
  }

  /** Listing and registering one more chunk under a coordinate that is not a
      key: the pool's front chunk while the pool lasts, otherwise one that is
      not listed. */
  lemma ListingStep(e1: map<Coord, Chunk>, done: seq<Coord>, list: seq<Chunk>, dict: map<Coord, Chunk>, pool: seq<Chunk>,
                    coord: Coord, chunk: Chunk)
    requires Listing(e1, done, list, dict, pool) && coord !in dict && chunk.coord == coord
    requires if pool == [] then chunk !in list else chunk == pool[0]
    ensures Listing(e1, done + [coord], list + [chunk], dict[coord := chunk], if pool == [] then [] else pool[1..])
  {
    var list', pool' := list + [chunk], if pool == [] then [] else pool[1..];
    if pool == [] {
      assert list + pool == list && list' + pool' == list';
      DistinctSnoc(list, chunk);
    } else {
      PoolFrontUnlisted(list, pool);
      assert list' + pool' == list + pool;
    }
    RegistryExtend(list, dict, chunk);
  }

  /** One more accepted coordinate, with its chunk listed, registered and meshed. */
  lemma PlacementExtend(gen: MeshGenerator, kernel: Vec3 -> seq<Triangle>,
                        c1: seq<Chunk>, e1: map<Coord, Chunk>, p1: seq<Chunk>, done: seq<Coord>,
                        placed: seq<Chunk>, list: seq<Chunk>, dict: map<Coord, Chunk>, pool: seq<Chunk>,
                        coord: Coord, chunk: Chunk)
    requires Placement(gen, kernel, c1, e1, p1, done, placed, list, dict, pool) && coord !in dict
    requires chunk.coord == coord && chunk.vertices == MeshVertices(coord, kernel, gen.boundsSize)
    requires chunk.triangles == MeshIndices(coord, kernel, gen.boundsSize)
    requires if pool == [] then chunk !in list else chunk == pool[0]
    ensures Placement(gen, kernel, c1, e1, p1, done + [coord], placed + [chunk], list + [chunk],
                      dict[coord := chunk], if pool == [] then [] else pool[1..])
  {
    MeshedSnoc(placed, done, kernel, gen.boundsSize, chunk, coord);
    PoolFrontStep(p1, placed, pool, chunk);
    ListingStep(e1, done, list, dict, pool, coord, chunk);
    assert list + [chunk] == c1 + (placed + [chunk]);
  }

  lemma PoolFrontUnlisted(c: seq<Chunk>, p: seq<Chunk>)
    requires Distinct(c + p) && p != []
    ensures p[0] !in c && Distinct((c + [p[0]]) + p[1..])
  {
    assert (c + [p[0]]) + p[1..] == c + p;
    forall i | 0 <= i < |c|
      ensures c[i] != p[0]
    {
      DistinctAt(c + p, i, |c|);
    }
  }

  /** The chunks left in the pool are the starting pool's and none of them
      was placed. */
  lemma PoolUntaken(gen: MeshGenerator, kernel: Vec3 -> seq<Triangle>,
                    c1: seq<Chunk>, e1: map<Coord, Chunk>, p1: seq<Chunk>, done: seq<Coord>,
                    placed: seq<Chunk>, list: seq<Chunk>, dict: map<Coord, Chunk>, pool: seq<Chunk>)
    requires Placement(gen, kernel, c1, e1, p1, done, placed, list, dict, pool)
    ensures forall ch | ch in pool :: ch in p1 && ch !in placed
  {
    DistinctApart(list, pool);
    forall ch | ch in pool
      ensures ch in p1 && ch !in placed
    {
      assert ch in list ==> ch !in pool;
      assert ch in placed ==> ch in list;
    }
  }

  /** Registering a chunk that is not listed, under a coordinate that is not a key,
      keeps the registry. */
  lemma RegistryExtend(c: seq<Chunk>, e: map<Coord, Chunk>, ch: Chunk)
    requires Registry(c, e) && ch.coord !in e && ch !in c
    ensures Registry(c + [ch], e[ch.coord := ch])
  {
  }

}
