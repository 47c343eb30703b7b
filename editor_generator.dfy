/** EditorMeshGenerator: one block of numChunks.x * numChunks.y * numChunks.z
    chunks centred on the origin, rebuilt on request. InitChunks reconciles the
    block with the chunks already in the scene: each coordinate, in x-outer,
    z-inner order, takes the first remaining scene chunk that carries it, or a
    new chunk; the scene chunks nobody claimed are retired. */
module EditorGenerator {
  import opened Lattice
  import opened Geometry
  import opened Buffers
  import opened MeshGeneration

  /** Where the chunk of one coordinate comes from: a chunk already in the
      scene, or CreateChunk. */
  datatype Source = Reuse(chunk: Chunk) | Create

  /** The outcome of the reconciliation: one Source per coordinate, in loop
      order, and the scene chunks left in oldChunks (the ones retired). */
  datatype Reconciled = Reconciled(sources: seq<Source>, unclaimed: seq<Chunk>)

  /** oldChunks.RemoveAt(i). */
  function RemoveAt<T>(s: seq<T>, i: int): (r: seq<T>)
    requires 0 <= i < |s|
    ensures |r| == |s| - 1
    ensures forall j :: 0 <= j < i ==> r[j] == s[j]
    ensures forall j :: i <= j < |r| ==> r[j] == s[j + 1]
  {
    s[..i] + s[i + 1..]
  }

  /** The index the search loop stops at: the first chunk of `pool` carrying
      `c`, or |pool| when none does. */
  function FirstMatch(pool: seq<Chunk>, c: Coord): (i: nat)
    reads pool
    ensures i <= |pool|
    ensures i < |pool| ==> pool[i].coord == c
    ensures forall j :: 0 <= j < i ==> pool[j].coord != c
  {
    if pool == [] then 0
    else if pool[0].coord == c then 0
    else 1 + FirstMatch(pool[1..], c)
  }

  /** The first match is the only index with a match and none before it. */
  lemma FirstMatchIs(pool: seq<Chunk>, c: Coord, i: int)
    requires 0 <= i <= |pool|
    requires i < |pool| ==> pool[i].coord == c
    requires forall j :: 0 <= j < i ==> pool[j].coord != c
    ensures FirstMatch(pool, c) == i
  {
  }

  /** Removing a chunk that does not carry c leaves the first match for c
      where it was: found in both or in neither, and the same chunk. */
  lemma FirstMatchRemoveOther(pool: seq<Chunk>, i: int, c: Coord)
    requires 0 <= i < |pool| && pool[i].coord != c
    ensures var f, g := FirstMatch(pool, c), FirstMatch(RemoveAt(pool, i), c);
            && (f < |pool| <==> g < |pool| - 1)
            && (f < |pool| ==> pool[f] == RemoveAt(pool, i)[g])
  {
    var r := RemoveAt(pool, i);
    var f := FirstMatch(pool, c);
    if f < i {
      FirstMatchIs(r, c, f);
    } else {
      assert f != i;
      forall j | 0 <= j < f - 1
        ensures r[j].coord != c
      {
        if j >= i {
          assert r[j] == pool[j + 1];
        }
      }
      FirstMatchIs(r, c, f - 1);
    }
  }

  /** The scene chunks that coordinates took over, in loop order. */
  function Reused(sources: seq<Source>): seq<Chunk> {
    if sources == [] then []
    else
      var last := sources[|sources| - 1];
      Reused(sources[..|sources| - 1]) + (if last.Reuse? then [last.chunk] else [])
  }

  /** A chunk was reused exactly when some coordinate's source is that chunk. */
  lemma {:induction false} ReusedMembers(sources: seq<Source>, ch: Chunk)
    ensures ch in Reused(sources) <==> exists k :: 0 <= k < |sources| && sources[k] == Reuse(ch)
  {
    if sources != [] {
      var init := sources[..|sources| - 1];
      ReusedMembers(init, ch);
      if exists k :: 0 <= k < |sources| && sources[k] == Reuse(ch) {
        var k :| 0 <= k < |sources| && sources[k] == Reuse(ch);
        if k < |init| {
          assert init[k] == Reuse(ch);
        }
      }
      if exists k :: 0 <= k < |init| && init[k] == Reuse(ch) {
        var k :| 0 <= k < |init| && init[k] == Reuse(ch);
        assert sources[k] == Reuse(ch);
      }
    }
  }

  /** InitChunks over `coords`, starting from the scene's chunks `olds`: each
      coordinate in turn claims its first match among the chunks not yet
      claimed, or is created. Every chunk left unclaimed is a scene chunk. */
  function Plan(olds: seq<Chunk>, coords: seq<Coord>): (r: Reconciled)
    reads olds
    ensures |r.sources| == |coords|
    ensures forall j :: 0 <= j < |r.unclaimed| ==> r.unclaimed[j] in olds
    decreases |coords|
  {
    if coords == [] then Reconciled([], olds)
    else
      var prev := Plan(olds, coords[..|coords| - 1]);
      var c := coords[|coords| - 1];
      var i := FirstMatch(prev.unclaimed, c);
      if i < |prev.unclaimed| then
        Reconciled(prev.sources + [Reuse(prev.unclaimed[i])], RemoveAt(prev.unclaimed, i))
      else
        Reconciled(prev.sources + [Create], prev.unclaimed)
  }

  lemma ReusedSnoc(s: seq<Source>, src: Source)
    ensures Reused(s + [src]) == Reused(s) + (if src.Reuse? then [src.chunk] else [])
  {
    assert (s + [src])[..|s|] == s;
  }

  lemma RemoveAtMultiset<T>(s: seq<T>, i: int)
    requires 0 <= i < |s|
    ensures multiset(RemoveAt(s, i)) + multiset{s[i]} == multiset(s)
  {
    assert s == s[..i] + [s[i]] + s[i + 1..];
  }

  /** No scene chunk is lost or duplicated: the claimed chunks and the
      unclaimed ones are, together, exactly the scene's chunks. */
  lemma {:induction false} PlanPartition(olds: seq<Chunk>, coords: seq<Coord>)
    ensures var r := Plan(olds, coords);
            multiset(Reused(r.sources)) + multiset(r.unclaimed) == multiset(olds)
    decreases |coords|
  {
    if coords != [] {
      var init := coords[..|coords| - 1];
      PlanPartition(olds, init);
      var prev := Plan(olds, init);
      var i := FirstMatch(prev.unclaimed, coords[|coords| - 1]);
      if i < |prev.unclaimed| {
        ReusedSnoc(prev.sources, Reuse(prev.unclaimed[i]));
        RemoveAtMultiset(prev.unclaimed, i);
      } else {
        ReusedSnoc(prev.sources, Create);
      }
    }
  }

  /** The sources of the first p coordinates do not depend on the coordinates
      after them. */
  lemma {:induction false} PlanPrefix(olds: seq<Chunk>, coords: seq<Coord>, p: int)
    requires 0 <= p <= |coords|
    ensures Plan(olds, coords).sources[..p] == Plan(olds, coords[..p]).sources
    decreases |coords|
  {
    if p < |coords| {
      var init := coords[..|coords| - 1];
      assert init[..p] == coords[..p];
      PlanPrefix(olds, init, p);
      var prev := Plan(olds, init);
      assert Plan(olds, coords).sources[..|init|] == prev.sources;
      assert Plan(olds, coords).sources[..p] == prev.sources[..p];
    } else {
      assert coords[..p] == coords;
    }
  }

  /** For a coordinate not yet visited, the chunks still unclaimed offer the
      same first match as the scene did: found in both or in neither, and the
      same chunk. */
  lemma {:induction false} UnclaimedKeepsFirstMatch(olds: seq<Chunk>, coords: seq<Coord>, c: Coord)
    requires c !in coords
    ensures var pool := Plan(olds, coords).unclaimed;
            var f, g := FirstMatch(olds, c), FirstMatch(pool, c);
            && (f < |olds| <==> g < |pool|)
            && (f < |olds| ==> olds[f] == pool[g])
    decreases |coords|
  {
    if coords != [] {
      var init := coords[..|coords| - 1];
      UnclaimedKeepsFirstMatch(olds, init, c);
      var prev := Plan(olds, init);
      var i := FirstMatch(prev.unclaimed, coords[|coords| - 1]);
      if i < |prev.unclaimed| {
        FirstMatchRemoveOther(prev.unclaimed, i, c);
      }
    }
  }

  /** Coordinate k takes the first scene chunk that carries it, and is created
      exactly when no scene chunk carries it (the block never repeats a
      coordinate). */
  lemma PlanSourceAt(olds: seq<Chunk>, coords: seq<Coord>, k: int)
    requires Distinct(coords) && 0 <= k < |coords|
    ensures var f := FirstMatch(olds, coords[k]);
            Plan(olds, coords).sources[k] == if f < |olds| then Reuse(olds[f]) else Create
  {
    var c := coords[k];
    var upto := coords[..k + 1];
    PlanPrefix(olds, coords, k + 1);
    assert Plan(olds, coords).sources[k] == Plan(olds, upto).sources[k];
    assert upto[..|upto| - 1] == coords[..k] && upto[|upto| - 1] == c;
    forall j | 0 <= j < k
      ensures coords[j] != c
    {
      DistinctAt(coords, j, k);
    }
    UnclaimedKeepsFirstMatch(olds, coords[..k], c);
  }

  /** A scene chunk is the first one carrying its own coordinate. */
  predicate FirstCarrier(olds: seq<Chunk>, ch: Chunk)
    reads olds, ch
  {
    var f := FirstMatch(olds, ch.coord);
    f < |olds| && olds[f] == ch
  }

  /** The chunks InitChunks retires are exactly the scene chunks whose
      coordinate lies outside the block, or which an earlier scene chunk with
      the same coordinate beat to it. */
  lemma PlanRetired(olds: seq<Chunk>, coords: seq<Coord>, ch: Chunk)
    requires Distinct(olds) && Distinct(coords)
    ensures ch in Plan(olds, coords).unclaimed <==> ch in olds && !(ch.coord in coords && FirstCarrier(olds, ch))
  {
    var r := Plan(olds, coords);
    PlanPartition(olds, coords);
    DistinctCount(olds, ch);
    ReusedMembers(r.sources, ch);
    if ch.coord in coords && FirstCarrier(olds, ch) {
      var k :| 0 <= k < |coords| && coords[k] == ch.coord;
      PlanSourceAt(olds, coords, k);
    }
    if ch in Reused(r.sources) {
      var k :| 0 <= k < |r.sources| && r.sources[k] == Reuse(ch);
      PlanSourceAt(olds, coords, k);
    }
  }

  /** The first k coordinates the triple loop visits. */
  function BlockPrefix(n: Coord, k: nat): (cs: seq<Coord>)
    ensures |cs| == k
  {
    seq(k, i => BlockCoord(n, i))
  }

  lemma BlockPrefixSnoc(n: Coord, k: nat)
    ensures BlockPrefix(n, k + 1) == BlockPrefix(n, k) + [BlockCoord(n, k)]
  {
  }

  /** Step z of the z loop at (x, y) visits Coord(x, y, z). */
  lemma RowStep(n: Coord, x: int, y: int, z: int, k: nat)
    requires InBlock(n, Coord(x, y, z)) && k == BlockIndex(n, Coord(x, y, 0))
    ensures BlockPrefix(n, k + z + 1) == BlockPrefix(n, k + z) + [Coord(x, y, z)]
  {
    BlockAt(n, Coord(x, y, z));
    BlockPrefixSnoc(n, k + z);
  }

  /** The z loop at (x, y) ends where the one at (x, y + 1) starts. */
  lemma NextRow(n: Coord, x: int, y: int)
    ensures BlockIndex(n, Coord(x, y, 0)) + Extent(n.z) == BlockIndex(n, Coord(x, y + 1, 0))
  {
    MulSucc(x * Extent(n.y) + y, Extent(n.z));
  }

  /** The y loop at x ends where the one at x + 1 starts. */
  lemma NextPlane(n: Coord, x: int)
    ensures BlockIndex(n, Coord(x, Extent(n.y), 0)) == BlockIndex(n, Coord(x + 1, 0, 0))
  {
    MulSucc(x, Extent(n.y));
  }

  /** The x loop visits the whole block, in order. */
  lemma PlaneStart(n: Coord, x: int)
    requires 0 <= x
    ensures 0 <= BlockIndex(n, Coord(x, 0, 0)) <= BlockIndex(n, Coord(x + 1, 0, 0))
    ensures x == Extent(n.x) ==> BlockIndex(n, Coord(x, 0, 0)) == BlockSize(n)
  {
    MulLeftMono(0, x, Extent(n.y));
    MulLeftMono(0, x * Extent(n.y), Extent(n.z));
    MulSucc(x, Extent(n.y));
    MulLeftMono(x * Extent(n.y), x * Extent(n.y) + Extent(n.y), Extent(n.z));
  }

  lemma BlockPrefixWhole(n: Coord)
    ensures BlockPrefix(n, BlockSize(n)) == Block(n)
  {
  }

  /** When coordinate j reuses a scene chunk, chunk j is that chunk. */
  predicate Claims(chunks: seq<Chunk>, sources: seq<Source>) {
    |chunks| == |sources| && forall j :: 0 <= j < |sources| ==> sources[j].Reuse? ==> chunks[j] == sources[j].chunk
  }

  /** Chunk j carries coordinate j. */
  ghost predicate Carries(chunks: seq<Chunk>, coords: seq<Coord>)
    reads chunks
  {
    |chunks| == |coords| && forall j :: 0 <= j < |coords| ==> chunks[j].coord == coords[j]
  }

  /** The list realises the sources of `coords`: one chunk per coordinate,
      carrying it, and the scene chunk itself where the coordinate reuses one. */
  ghost predicate Realises(chunks: seq<Chunk>, sources: seq<Source>, coords: seq<Coord>)
    reads chunks
  {
    Claims(chunks, sources) && Carries(chunks, coords)
  }

  /** A coordinate that is created had no match among the chunks still
      unclaimed, so no chunk left unclaimed at the end carries it. */
  lemma {:induction false} CreatedUnmatched(olds: seq<Chunk>, coords: seq<Coord>, j: int, ch: Chunk)
    requires 0 <= j < |coords|
    requires Plan(olds, coords).sources[j] == Create
    requires ch in Plan(olds, coords).unclaimed
    ensures ch.coord != coords[j]
    decreases |coords|
  {
    var init := coords[..|coords| - 1];
    var prev := Plan(olds, init);
    var c := coords[|coords| - 1];
    var i := FirstMatch(prev.unclaimed, c);
    assert ch in prev.unclaimed by {
      if i < |prev.unclaimed| {
        var k :| 0 <= k < |RemoveAt(prev.unclaimed, i)| && RemoveAt(prev.unclaimed, i)[k] == ch;
        if k < i {
          assert prev.unclaimed[k] == ch;
        } else {
          assert prev.unclaimed[k + 1] == ch;
        }
      }
    }
    if j == |coords| - 1 {
      assert i == |prev.unclaimed|;
      var k :| 0 <= k < |prev.unclaimed| && prev.unclaimed[k] == ch;
      assert prev.unclaimed[k].coord != c;
    } else {
      assert prev.sources[j] == Create;
      CreatedUnmatched(olds, init, j, ch);
    }
  }

  /** Over a scene without repeats, a list realising the plan holds none of
      the chunks the plan leaves unclaimed. */
  lemma UnclaimedUnlisted(olds: seq<Chunk>, coords: seq<Coord>, chunks: seq<Chunk>)
    requires Distinct(olds)
    requires Realises(chunks, Plan(olds, coords).sources, coords)
    ensures forall ch | ch in Plan(olds, coords).unclaimed :: ch !in chunks
  {
    var r := Plan(olds, coords);
    PlanPartition(olds, coords);
    forall ch, j | ch in r.unclaimed && 0 <= j < |chunks|
      ensures chunks[j] != ch
    {
      if r.sources[j].Reuse? {
        ReusedMembers(r.sources, r.sources[j].chunk);
        DistinctCount(olds, ch);
        assert multiset(r.unclaimed)[ch] >= 1;
        assert ch !in Reused(r.sources);
      } else {
        CreatedUnmatched(olds, coords, j, ch);
      }
    }
  }

  /** The state of InitChunks once it has visited `coords`: the chunk list
      and what is left of oldChunks are the ones Plan gives, and, when the
      scene lists no chunk twice, no chunk is listed twice in either. */
  ghost predicate Reconciling(olds: seq<Chunk>, coords: seq<Coord>, chunks: seq<Chunk>, pool: seq<Chunk>)
    reads olds, chunks
  {
    var r := Plan(olds, coords);
    && pool == r.unclaimed
    && Realises(chunks, r.sources, coords)
    && (Distinct(olds) ==> Distinct(chunks + pool))
  }

  /** Before the first coordinate: nothing listed, the pool is the scene. */
  lemma ProgressStart(olds: seq<Chunk>, n: Coord)
    ensures Progress(olds, BlockPrefix(n, 0), [], olds, {})
  {
    assert BlockPrefix(n, 0) == [] && [] + olds == olds;
  }

  /** Visiting a coordinate whose first match in the pool is at i: that chunk
      moves from the pool to the end of the list. */
  lemma ReconcileClaim(olds: seq<Chunk>, coords: seq<Coord>, chunks: seq<Chunk>, pool: seq<Chunk>, coord: Coord, i: int)
    requires Reconciling(olds, coords, chunks, pool)
    requires 0 <= i < |pool| && i == FirstMatch(pool, coord)
    ensures Reconciling(olds, coords + [coord], chunks + [pool[i]], RemoveAt(pool, i))
  {
    var coords', chunks', pool' := coords + [coord], chunks + [pool[i]], RemoveAt(pool, i);
    assert coords'[..|coords|] == coords;
    var r, r' := Plan(olds, coords), Plan(olds, coords');
    assert r'.sources == r.sources + [Reuse(pool[i])] && r'.unclaimed == pool';
    forall j | 0 <= j < |coords|
      ensures chunks'[j] == chunks[j] && coords'[j] == coords[j] && r'.sources[j] == r.sources[j]
    {
    }
    if Distinct(olds) {
      DistinctMove(chunks, pool, i);
    }
  }

  /** Moving one pooled chunk to the end of the list keeps list and pool
      free of repeats. */
  lemma DistinctMove(chunks: seq<Chunk>, pool: seq<Chunk>, i: int)
    requires 0 <= i < |pool| && Distinct(chunks + pool)
    ensures Distinct((chunks + [pool[i]]) + RemoveAt(pool, i))
  {
    RemoveAtMultiset(pool, i);
    assert multiset((chunks + [pool[i]]) + RemoveAt(pool, i)) == multiset(chunks + pool);
    DistinctPermutation(chunks + pool, (chunks + [pool[i]]) + RemoveAt(pool, i));
  }

  /** Visiting a coordinate no pooled chunk carries: a chunk listed nowhere
      is appended and the pool stays as it was. */
  lemma ReconcileCreate(olds: seq<Chunk>, coords: seq<Coord>, chunks: seq<Chunk>, pool: seq<Chunk>, coord: Coord, ch: Chunk)
    requires Reconciling(olds, coords, chunks, pool)
    requires FirstMatch(pool, coord) == |pool| && ch.coord == coord && ch !in chunks + pool
    ensures Reconciling(olds, coords + [coord], chunks + [ch], pool)
  {
    var coords', chunks' := coords + [coord], chunks + [ch];
    assert coords'[..|coords|] == coords;
    var r, r' := Plan(olds, coords), Plan(olds, coords');
    assert r'.sources == r.sources + [Create];
    forall j | 0 <= j < |coords|
      ensures chunks'[j] == chunks[j] && coords'[j] == coords[j] && r'.sources[j] == r.sources[j]
    {
    }
    if Distinct(olds) {
      DistinctSnoc(chunks + pool, ch);
      assert multiset((chunks + pool) + [ch]) == multiset(chunks' + pool);
      DistinctPermutation((chunks + pool) + [ch], chunks' + pool);
    }
  }

  /** Every listed chunk is a scene chunk or one of `created`. */
  predicate Sourced(chunks: seq<Chunk>, olds: seq<Chunk>, created: set<Chunk>) {
    forall j :: 0 <= j < |chunks| ==> chunks[j] in olds || chunks[j] in created
  }

  /** Reconciling, with every listed chunk a scene chunk or a created one. */
  ghost predicate Progress(olds: seq<Chunk>, coords: seq<Coord>, chunks: seq<Chunk>, pool: seq<Chunk>, created: set<Chunk>)
    reads olds, chunks
  {
    Reconciling(olds, coords, chunks, pool) && Sourced(chunks, olds, created)
  }

  lemma ProgressClaim(olds: seq<Chunk>, coords: seq<Coord>, chunks: seq<Chunk>, pool: seq<Chunk>, created: set<Chunk>,
                      coord: Coord, i: int)
    requires Progress(olds, coords, chunks, pool, created)
    requires 0 <= i < |pool| && i == FirstMatch(pool, coord)
    ensures Progress(olds, coords + [coord], chunks + [pool[i]], RemoveAt(pool, i), created)
  {
    ReconcileClaim(olds, coords, chunks, pool, coord, i);
  }

  lemma ProgressCreate(olds: seq<Chunk>, coords: seq<Coord>, chunks: seq<Chunk>, pool: seq<Chunk>, created: set<Chunk>,
                       coord: Coord, ch: Chunk)
    requires Progress(olds, coords, chunks, pool, created)
    requires FirstMatch(pool, coord) == |pool| && ch.coord == coord && ch !in chunks + pool
    ensures Progress(olds, coords + [coord], chunks + [ch], pool, created + {ch})
  {
    ReconcileCreate(olds, coords, chunks, pool, coord, ch);
  }

  /** Lines 79-96 for one coordinate: search oldChunks for the coordinate,
      move the first match to the chunk list, otherwise create a chunk. */
  method ClaimOrCreate(gen: MeshGenerator, coord: Coord, ghost olds: seq<Chunk>, ghost coords: seq<Coord>,
                       chunks: seq<Chunk>, oldChunks: seq<Chunk>, ghost created: set<Chunk>)
    returns (chunks': seq<Chunk>, oldChunks': seq<Chunk>, ghost created': set<Chunk>)
    requires Progress(olds, coords, chunks, oldChunks, created)
    ensures Progress(olds, coords + [coord], chunks', oldChunks', created')
    ensures fresh(created' - created)
  {
    chunks', oldChunks', created' := chunks, oldChunks, created;
    // The steps below take and return Progress whole; its definition stays folded.
    hide Progress;
    var chunkAlreadyExists := false;
    var i := 0;
    while i < |oldChunks'|
      invariant 0 <= i <= |oldChunks|
      invariant !chunkAlreadyExists && chunks' == chunks && oldChunks' == oldChunks
      invariant forall j :: 0 <= j < i ==> oldChunks[j].coord != coord
    {
      if oldChunks'[i].coord != coord {
        i := i + 1;
        continue;
      }
      chunks' := chunks' + [oldChunks'[i]];
      oldChunks' := RemoveAt(oldChunks', i);
      chunkAlreadyExists := true;
      break;
    }
    FirstMatchIs(oldChunks, coord, i);
    if chunkAlreadyExists {
      ProgressClaim(olds, coords, chunks, oldChunks, created, coord, i);
    } else {
      var newChunk := gen.CreateChunk(coord);
      chunks' := chunks' + [newChunk];
      created' := created + {newChunk};
      ProgressCreate(olds, coords, chunks, oldChunks, created, coord, newChunk);
    }
  }

  /** The z loop of InitChunks at fixed x and y. */
  method InitRow(gen: MeshGenerator, n: Coord, x: int, y: int, ghost k: nat, ghost olds: seq<Chunk>,
                 chunks: seq<Chunk>, oldChunks: seq<Chunk>, ghost created: set<Chunk>)
    returns (chunks': seq<Chunk>, oldChunks': seq<Chunk>, ghost created': set<Chunk>)
    requires 0 <= x < n.x && 0 <= y < n.y && k == BlockIndex(n, Coord(x, y, 0))
    requires Progress(olds, BlockPrefix(n, k), chunks, oldChunks, created)
    ensures Progress(olds, BlockPrefix(n, k + Extent(n.z)), chunks', oldChunks', created')
    ensures fresh(created' - created)
  {
    chunks', oldChunks', created' := chunks, oldChunks, created;
    // The steps below take and return Progress whole; its definition stays folded.
    hide Progress;
    var z := 0;
    while z < n.z
      invariant 0 <= z <= Extent(n.z)
      invariant Progress(olds, BlockPrefix(n, k + z), chunks', oldChunks', created')
      invariant fresh(created' - created)
    {
      var coord := Coord(x, y, z);
      RowStep(n, x, y, z, k);
      chunks', oldChunks', created' := ClaimOrCreate(gen, coord, olds, BlockPrefix(n, k + z), chunks', oldChunks', created');
      z := z + 1;
    }
  }

  /** The y loop of InitChunks at fixed x. */
  method InitPlane(gen: MeshGenerator, n: Coord, x: int, ghost k: nat, ghost next: nat, ghost olds: seq<Chunk>,
                   chunks: seq<Chunk>, oldChunks: seq<Chunk>, ghost created: set<Chunk>)
    returns (chunks': seq<Chunk>, oldChunks': seq<Chunk>, ghost created': set<Chunk>)
    requires 0 <= x < n.x && k == BlockIndex(n, Coord(x, 0, 0)) && next == BlockIndex(n, Coord(x + 1, 0, 0))
    requires Progress(olds, BlockPrefix(n, k), chunks, oldChunks, created)
    ensures Progress(olds, BlockPrefix(n, next), chunks', oldChunks', created')
    ensures fresh(created' - created)
  {
    chunks', oldChunks', created' := chunks, oldChunks, created;
    // The steps below take and return Progress whole; its definition stays folded.
    hide Progress;
    var y := 0;
    ghost var row: nat := k;
    while y < n.y
      invariant 0 <= y <= Extent(n.y) && row == BlockIndex(n, Coord(x, y, 0))
      invariant Progress(olds, BlockPrefix(n, row), chunks', oldChunks', created')
      invariant fresh(created' - created)
    {
      chunks', oldChunks', created' := InitRow(gen, n, x, y, row, olds, chunks', oldChunks', created');
      NextRow(n, x, y);
      row := row + Extent(n.z);
      y := y + 1;
    }
    NextPlane(n, x);
  }

  /** After the x loop: the whole block visited. */
  lemma ReconciledBlock(olds: seq<Chunk>, n: Coord, chunks: seq<Chunk>, pool: seq<Chunk>, created: set<Chunk>)
    requires Progress(olds, BlockPrefix(n, BlockSize(n)), chunks, pool, created)
    ensures Realises(chunks, Plan(olds, Block(n)).sources, Block(n))
    ensures pool == Plan(olds, Block(n)).unclaimed
    ensures Distinct(olds) ==> Distinct(chunks)
    ensures Sourced(chunks, olds, created)
  {
    BlockPrefixWhole(n);
    if Distinct(olds) {
      DistinctParts(chunks, pool);
    }
  }

  /** Lines 68-101: the x loop of InitChunks over the block `n`, starting
      from an empty list and the scene's chunks. */
  method InitBlock(gen: MeshGenerator, n: Coord, scene: seq<Chunk>)
    returns (list: seq<Chunk>, oldChunks: seq<Chunk>, ghost created: set<Chunk>)
    ensures Realises(list, Plan(scene, Block(n)).sources, Block(n))
    ensures oldChunks == Plan(scene, Block(n)).unclaimed
    ensures Distinct(scene) ==> Distinct(list)
    ensures Sourced(list, scene, created) && fresh(created)
  {
    list, oldChunks, created := [], scene, {};
    ProgressStart(scene, n);
    // ProgressStart gives the loop invariant whole; its definition stays folded.
    hide Progress;
    var x := 0;
    ghost var plane: nat := 0;
    while x < n.x
      invariant 0 <= x <= Extent(n.x) && plane == BlockIndex(n, Coord(x, 0, 0))
      invariant Progress(scene, BlockPrefix(n, plane), list, oldChunks, created)
      invariant fresh(created)
    {
      PlaneStart(n, x);
      list, oldChunks, created := InitPlane(gen, n, x, plane, BlockIndex(n, Coord(x + 1, 0, 0)), scene, list, oldChunks, created);
      plane := BlockIndex(n, Coord(x + 1, 0, 0));
      x := x + 1;
    }
    PlaneStart(n, x);
    ReconciledBlock(scene, n, list, oldChunks, created);
  }

  /** The mesh UpdateChunkMesh builds for a chunk of the batch generator:
      what the extraction pipeline emits at the chunk's centre in the block
      centred on the origin, flattened, with the identity index array. */
  ghost predicate BatchMeshed(ch: Chunk, kernel: Vec3 -> seq<Triangle>, numChunks: Coord, boundsSize: real)
    reads ch
  {
    var triangles := kernel(BatchCentre(ch.coord, numChunks, boundsSize));
    ch.vertices == Flatten(triangles) && ch.triangles == seq(3 * |triangles|, k => k)
  }

  /** The chunk list is the block of `gen` reconciled as `r` says, every
      chunk carrying the mesh built at its centre. */
  ghost predicate Shows(chunks: seq<Chunk>, gen: MeshGenerator, r: Reconciled, kernel: Vec3 -> seq<Triangle>)
    reads gen, chunks
  {
    && Realises(chunks, r.sources, Block(gen.numChunks))
    && forall j :: 0 <= j < |chunks| ==> BatchMeshed(chunks[j], kernel, gen.numChunks, gen.boundsSize)
  }

  /** EditorMeshGenerator. `gen` is the AbstractMeshGenerator part, with the
      batch layout's CentreFromCoord (lines 57-61). */
  class EditorMeshGenerator {
    const gen: MeshGenerator
    var autoUpdateInEditor: bool
    var autoUpdateInGame: bool
    var settingsUpdated: bool
    var chunks: seq<Chunk>

    ghost predicate Valid()
      reads gen, gen.pointsBuffer, gen.triangleBuffer, gen.triCountBuffer
    {
      gen.layout == Batch && gen.Valid()
    }

    lemma ValidParts()
      ensures Valid() <==> gen.layout == Batch && gen.Valid()
    {
    }

    constructor (gen: MeshGenerator)
      requires gen.layout == Batch && gen.Valid()
      ensures Valid() && this.gen == gen
      ensures autoUpdateInEditor && autoUpdateInGame && !settingsUpdated && chunks == []
    {
      this.gen := gen;
      autoUpdateInEditor, autoUpdateInGame := true, true;
      settingsUpdated := false;
      chunks := [];
    }

    /** Whether RequestMeshUpdate rebuilds, in play mode or in the editor. */
    predicate AutoUpdates(playing: bool)
      reads this
    {
      (playing && autoUpdateInGame) || (!playing && autoUpdateInEditor)
    }

    /** InitChunks, with the chunks found in the scene as `scene`: the new list
        visits the block in loop order, coordinate by coordinate as Plan says;
        the scene chunks it did not claim are returned (to be destroyed or
        disabled). */
    method InitChunks(scene: seq<Chunk>) returns (retired: seq<Chunk>)
      modifies this
      ensures autoUpdateInEditor == old(autoUpdateInEditor) && autoUpdateInGame == old(autoUpdateInGame)
      ensures settingsUpdated == old(settingsUpdated)
      ensures Realises(chunks, old(Plan(scene, Block(gen.numChunks))).sources, Block(gen.numChunks))
      ensures retired == old(Plan(scene, Block(gen.numChunks))).unclaimed
      ensures Distinct(scene) ==> Distinct(chunks)
      ensures forall j :: 0 <= j < |chunks| ==> chunks[j] in scene || fresh(chunks[j])
    {
      // The calls below take and return these predicates whole; their definitions stay folded.
      hide Realises, Plan, Distinct, Block;
      ghost var created;
      chunks, retired, created := InitBlock(gen, gen.numChunks, scene);
    }

    /** Builds every listed chunk's mesh; coordinates stay as they were, so
        a list that realised a reconciliation `r` of the block now shows it. */
    method UpdateAllChunks(kernel: Vec3 -> seq<Triangle>, ghost r: Reconciled)
      requires gen.layout == Batch && gen.Ready() && KernelFits(kernel, gen.numPointsPerAxis)
      modifies chunks, gen.triangleBuffer, gen.triCountBuffer
      ensures gen.Ready()
      ensures forall j :: 0 <= j < |chunks| ==> chunks[j].coord == old(chunks[j].coord)
      ensures forall j :: 0 <= j < |chunks| ==> BatchMeshed(chunks[j], kernel, gen.numChunks, gen.boundsSize)
      ensures old(Realises(chunks, r.sources, Block(gen.numChunks))) ==> Shows(chunks, gen, r, kernel)
    {
      for i := 0 to |chunks|
        invariant gen.Ready()
        invariant forall j :: 0 <= j < |chunks| ==> chunks[j].coord == old(chunks[j].coord)
        invariant forall j :: 0 <= j < i ==> BatchMeshed(chunks[j], kernel, gen.numChunks, gen.boundsSize)
      {
        gen.UpdateChunkMesh(chunks[i], kernel);
      }
    }

    /** Run: allocate the buffers, reconcile the block with the scene, mesh
        every chunk, release the buffers. */
    method Run(playing: bool, scene: seq<Chunk>, kernel: Vec3 -> seq<Triangle>) returns (retired: seq<Chunk>)
      requires Valid() && KernelFits(kernel, gen.numPointsPerAxis)
      modifies this, scene, gen, gen.pointsBuffer, gen.triangleBuffer, gen.triCountBuffer
      ensures Valid() && gen.Ready()
      ensures autoUpdateInEditor == old(autoUpdateInEditor) && autoUpdateInGame == old(autoUpdateInGame)
      ensures settingsUpdated == old(settingsUpdated)
      ensures gen.numChunks == old(gen.numChunks) && gen.boundsSize == old(gen.boundsSize)
      ensures gen.numPointsPerAxis == old(gen.numPointsPerAxis)
      ensures Shows(chunks, gen, old(Plan(scene, Block(gen.numChunks))), kernel)
      ensures retired == old(Plan(scene, Block(gen.numChunks))).unclaimed
      ensures Distinct(scene) ==> Distinct(chunks)
      ensures Distinct(scene) ==> forall ch | ch in retired :: unchanged(ch)
      ensures gen.pointsBuffer.released && gen.triangleBuffer.released && gen.triCountBuffer.released
    {
      // The calls below take and return these predicates whole; their definitions stay folded.
      hide Valid, MeshGenerator.Valid, MeshGenerator.Ready, Plan, Block, Distinct, BatchMeshed, KernelFits,
        Shows, Realises;
      ValidParts();
      gen.CreateBuffers(playing);
      retired := InitChunks(scene);
      if Distinct(scene) {
        UnclaimedUnlisted(scene, Block(gen.numChunks), chunks);
      }
      UpdateAllChunks(kernel, old(Plan(scene, Block(gen.numChunks))));
      gen.ReadyIsValid();
      gen.ReleaseBuffers();
      ValidParts();
    }

    /** RequestMeshUpdate: rebuilds everything when auto-update is on for the
        current mode (`playing` stands for Application.isPlaying); otherwise
        nothing changes and nothing is retired. */
    method RequestMeshUpdate(playing: bool, scene: seq<Chunk>, kernel: Vec3 -> seq<Triangle>) returns (retired: seq<Chunk>)
      requires Valid() && KernelFits(kernel, gen.numPointsPerAxis)
      modifies this, scene, gen, gen.pointsBuffer, gen.triangleBuffer, gen.triCountBuffer
      ensures Valid()
      ensures autoUpdateInEditor == old(autoUpdateInEditor) && autoUpdateInGame == old(autoUpdateInGame)
      ensures settingsUpdated == old(settingsUpdated)
      ensures gen.numChunks == old(gen.numChunks) && gen.boundsSize == old(gen.boundsSize)
      ensures gen.numPointsPerAxis == old(gen.numPointsPerAxis)
      ensures AutoUpdates(playing) ==>
                && Shows(chunks, gen, old(Plan(scene, Block(gen.numChunks))), kernel)
                && retired == old(Plan(scene, Block(gen.numChunks))).unclaimed
                && gen.Ready() && gen.pointsBuffer.released && gen.triangleBuffer.released && gen.triCountBuffer.released
      ensures !AutoUpdates(playing) ==> unchanged(this, gen) && retired == []
      ensures !AutoUpdates(playing) ==>
                && unchanged(scene)
                && (gen.pointsBuffer != null ==> unchanged(gen.pointsBuffer, gen.triangleBuffer, gen.triCountBuffer))
      ensures Distinct(scene) ==> forall ch | ch in retired :: unchanged(ch)
    {
      // The calls below take and return these predicates whole; their definitions stay folded.
      hide Valid, MeshGenerator.Valid, MeshGenerator.Ready, Plan, Block, Distinct, Shows, KernelFits;
      retired := [];
      if (playing && autoUpdateInGame) || (!playing && autoUpdateInEditor) {
        retired := Run(playing, scene, kernel);
      }
    }

    /** Update, once per frame: a pending settings change triggers
        RequestMeshUpdate and is then cleared. */
    method Update(playing: bool, scene: seq<Chunk>, kernel: Vec3 -> seq<Triangle>) returns (retired: seq<Chunk>)
      requires Valid() && KernelFits(kernel, gen.numPointsPerAxis)
      modifies this, scene, gen, gen.pointsBuffer, gen.triangleBuffer, gen.triCountBuffer
      ensures Valid() && !settingsUpdated
      ensures autoUpdateInEditor == old(autoUpdateInEditor) && autoUpdateInGame == old(autoUpdateInGame)
      ensures gen.numChunks == old(gen.numChunks) && gen.boundsSize == old(gen.boundsSize)
      ensures gen.numPointsPerAxis == old(gen.numPointsPerAxis)
      ensures old(settingsUpdated) && AutoUpdates(playing) ==>
                && Shows(chunks, gen, old(Plan(scene, Block(gen.numChunks))), kernel)
                && retired == old(Plan(scene, Block(gen.numChunks))).unclaimed
                && gen.Ready() && gen.pointsBuffer.released && gen.triangleBuffer.released && gen.triCountBuffer.released
      ensures !(old(settingsUpdated) && AutoUpdates(playing)) ==>
                && chunks == old(chunks) && unchanged(gen) && retired == []
                && unchanged(scene)
                && (gen.pointsBuffer != null ==> unchanged(gen.pointsBuffer, gen.triangleBuffer, gen.triCountBuffer))
      ensures Distinct(scene) ==> forall ch | ch in retired :: unchanged(ch)
    {
      // The calls below take and return these predicates whole; their definitions stay folded.
      hide Valid, MeshGenerator.Valid, MeshGenerator.Ready, Plan, Block, Distinct, Shows, KernelFits;
      retired := [];
      if !settingsUpdated {
        return;
      }
      retired := RequestMeshUpdate(playing, scene, kernel);
      settingsUpdated := false;
    }

    /** OnValidate: an inspector edit marks the settings as changed and
        nothing else. */
    method OnValidate()
      modifies this
      ensures settingsUpdated
      ensures autoUpdateInEditor == old(autoUpdateInEditor) && autoUpdateInGame == old(autoUpdateInGame)
      ensures chunks == old(chunks)
    {
      settingsUpdated := true;
    }
  }
}
