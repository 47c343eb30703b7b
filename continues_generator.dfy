/** ContinuesMeshGenerator: the registry of live chunks (the list `chunks`, the
    dictionary `existingChunks` from coordinate to chunk, and the FIFO pool
    `reusableChunks`) and the pass that evicts out-of-range chunks into the pool
    and gives every new, in-range, visible candidate coordinate a chunk. */
module ContinuesGenerator {
  import opened Lattice
  import opened Geometry
  import opened Buffers
  import opened MeshGeneration
  import opened ChunkStreaming
  import opened ChunkRegistry

  /** Listed chunks that are distinct carry distinct coordinates. */
  lemma RegistryCoordsDistinct(s: seq<Chunk>, entries: map<Coord, Chunk>, i: int)
    requires Distinct(s) && Registry(s, entries) && 0 <= i < |s|
    ensures s[i].coord !in CoordsOf(s[..i])
  {
    forall j | 0 <= j < i
      ensures s[j].coord != s[i].coord
    {
      DistinctAt(s, j, i);
    }
  }

  /** The entries kept while eviction still has the chunks carrying `pending` ahead. */
  function KeptEntries(entries: map<Coord, Chunk>, inRange: Coord -> bool, pending: set<Coord>): map<Coord, Chunk> {
    map c | c in entries && (inRange(c) || c in pending) :: entries[c]
  }

  lemma KeptEntriesStep(entries: map<Coord, Chunk>, inRange: Coord -> bool, pending: set<Coord>, c: Coord)
    requires c in pending
    ensures inRange(c) ==> KeptEntries(entries, inRange, pending - {c}) == KeptEntries(entries, inRange, pending)
    ensures !inRange(c) ==> KeptEntries(entries, inRange, pending - {c}) == KeptEntries(entries, inRange, pending) - {c}
  {
  }

  /** The registry after eviction: the dictionary entries whose key is in range. */
  function InRangeEntries(entries: map<Coord, Chunk>, inRange: Coord -> bool): map<Coord, Chunk> {
    map c | c in entries && inRange(c) :: entries[c]
  }

  class ContinuesMeshGenerator {
    /** The AbstractMeshGenerator part: configuration, buffers, the mesh build. */
    const gen: MeshGenerator
    var viewDistance: real
    /** False until InitiateVariableChunkStructures has run (the structures are null). */
    var structuresReady: bool
    var chunks: seq<Chunk>
    var existingChunks: map<Coord, Chunk>
    /** The FIFO pool: Enqueue appends, Dequeue takes index 0. */
    var reusableChunks: seq<Chunk>

    /** No chunk is listed twice or is both active and pooled; the dictionary maps
        exactly the coordinates of the active chunks, each to the chunk carrying it. */
    ghost predicate Valid()
      reads this, chunks
    {
      && gen.layout == Streaming
      && Distinct(chunks + reusableChunks)
      && (!structuresReady ==> chunks == [] && existingChunks == map[] && reusableChunks == [])
      && Registry(chunks, existingChunks)
    }

    lemma ValidParts()
      requires Valid()
      ensures gen.layout == Streaming && Distinct(chunks + reusableChunks) && Registry(chunks, existingChunks)
      ensures !structuresReady ==> chunks == [] && existingChunks == map[] && reusableChunks == []
    {
    }

    /** The inputs of one pass, read from the viewer's position and the settings. */
    function ViewAt(position: Vec3): View
      reads this, gen
    {
      View(position, gen.boundsSize, viewDistance)
    }

    constructor (gen: MeshGenerator, viewDistance: real)
      requires gen.layout == Streaming
      ensures Valid() && this.gen == gen && this.viewDistance == viewDistance
      ensures !structuresReady
    {
      this.gen := gen;
      this.viewDistance := viewDistance;
      structuresReady := false;
      chunks, existingChunks, reusableChunks := [], map[], [];
    }

    /** Awake, when playing: fresh, empty list, dictionary and pool. */
    method InitiateVariableChunkStructures()
      requires Valid()
      modifies this
      ensures Valid() && structuresReady
      ensures chunks == [] && existingChunks == map[] && reusableChunks == []
      ensures viewDistance == old(viewDistance)
    {
      reusableChunks := [];
      chunks := [];
      existingChunks := map[];
      structuresReady := true;
    }

    /** The eviction pass: from the last index down, every chunk whose coordinate
        fails the range test leaves the dictionary and the list and joins the pool's back. */
    method EvictOutOfView(inRange: Coord -> bool)
      requires Valid()
      modifies this
      ensures Valid()
      ensures structuresReady == old(structuresReady) && viewDistance == old(viewDistance)
      ensures chunks == old(Survivors(chunks, inRange))
      ensures reusableChunks == old(reusableChunks + Evicted(chunks, inRange))
      ensures existingChunks == InRangeEntries(old(existingChunks), inRange)
      ensures forall ch | ch in old(chunks) && inRange(ch.coord) :: ch in chunks
      ensures forall ch | ch in reusableChunks :: ch in old(reusableChunks) || ch in old(chunks)
    {
      ghost var s0, p0, e0 := chunks, reusableChunks, existingChunks;
      EvictionMembers(s0, p0, inRange);
      DistinctParts(s0, p0);
      assert gen.layout == Streaming && Distinct(s0 + p0) && Registry(s0, e0);
      // The loop below needs only the facts asserted above, not these definitions.
      hide Valid, Distinct, Registry;
      chunks, existingChunks, reusableChunks := EvictFrom(chunks, existingChunks, reusableChunks, inRange);
      EvictionKeepsValid(s0, p0, e0, inRange);
    }

    /** The loop of the eviction pass, on the list, dictionary and pool it rewrites. */
    static method EvictFrom(s0: seq<Chunk>, e0: map<Coord, Chunk>, p0: seq<Chunk>, inRange: Coord -> bool)
        returns (list: seq<Chunk>, dict: map<Coord, Chunk>, pool: seq<Chunk>)
      requires Distinct(s0) && Registry(s0, e0)
      ensures list == Survivors(s0, inRange) && pool == p0 + Evicted(s0, inRange)
      ensures dict == InRangeEntries(e0, inRange)
    {
      list, dict, pool := s0, e0, p0;
      var i := |list|;
      assert s0[..i] == s0 && s0[i..] == [];
      while i > 0
        invariant 0 <= i <= |s0|
        invariant list == s0[..i] + Survivors(s0[i..], inRange)
        invariant pool == p0 + Evicted(s0[i..], inRange)
        invariant dict == KeptEntries(e0, inRange, CoordsOf(s0[..i]))
      {
        i := i - 1;
        EvictionListStep(s0, inRange, i);
        EvictionPoolStep(s0, p0, inRange, i);
        EvictionDictStep(s0, e0, inRange, i);
        var chunk := list[i];
        if !inRange(chunk.coord) {
          dict := dict - {chunk.coord};
          pool := pool + [chunk];
          list := list[..i] + list[i + 1..];
        }
      }
      EvictionDone(s0, p0, e0, inRange, list, pool, dict);
    }

    /** Dequeue from the pool when it is not empty, otherwise CreateChunk; either
        way the chunk then takes the coordinate and gets its mesh. */
    static method TakeChunk(gen: MeshGenerator, pool: seq<Chunk>, coord: Coord, kernel: Vec3 -> seq<Triangle>)
        returns (chunk: Chunk, rest: seq<Chunk>)
      requires gen.layout == Streaming && gen.Ready() && KernelFits(kernel, gen.numPointsPerAxis)
      modifies (if pool == [] then {} else {pool[0]}), gen.triangleBuffer, gen.triCountBuffer
      ensures gen.Ready()
      ensures chunk.coord == coord
      ensures chunk.vertices == MeshVertices(coord, kernel, gen.boundsSize)
      ensures chunk.triangles == MeshIndices(coord, kernel, gen.boundsSize)
      ensures pool != [] ==> chunk == pool[0] && rest == pool[1..]
      ensures pool == [] ==> fresh(chunk) && rest == []
    {
      if |pool| > 0 {
        chunk := pool[0];
        rest := pool[1..];
        chunk.coord := coord;
      } else {
        chunk := gen.CreateChunk(coord);
        rest := pool;
        chunk.coord := coord;
      }
      gen.UpdateChunkMesh(chunk, kernel);
    }

    /** One admitted candidate: the pool's front chunk, or a new one once the pool
        is empty, takes the coordinate, is registered and listed, and gets its mesh. */
    static method PlaceChunk(gen: MeshGenerator, coord: Coord, kernel: Vec3 -> seq<Triangle>,
                             ghost c1: seq<Chunk>, ghost e1: map<Coord, Chunk>, ghost p1: seq<Chunk>, ghost done: seq<Coord>,
                             ghost placed: seq<Chunk>, list: seq<Chunk>, dict: map<Coord, Chunk>, pool: seq<Chunk>)
        returns (chunk: Chunk, list': seq<Chunk>, dict': map<Coord, Chunk>, pool': seq<Chunk>, ghost placed': seq<Chunk>)
      requires Placement(gen, kernel, c1, e1, p1, done, placed, list, dict, pool) && coord !in dict
      requires gen.layout == Streaming && gen.Ready() && KernelFits(kernel, gen.numPointsPerAxis)
      modifies (if pool == [] then {} else {pool[0]}), gen.triangleBuffer, gen.triCountBuffer
      ensures gen.Ready()
      ensures Placement(gen, kernel, c1, e1, p1, done + [coord], placed', list', dict', pool')
      ensures placed' == placed + [chunk]
      ensures pool == [] ==> fresh(chunk)
      ensures pool != [] ==> chunk == pool[0]
    {
      if pool != [] {
        PoolFrontUnlisted(list, pool);
        assert pool[0] !in placed && pool[0] in p1;
      }
      // The calls below take and return these predicates whole; their definitions stay folded.
      hide Placement, MeshGenerator.Ready, MeshVertices, MeshIndices, KernelFits;
      chunk, pool' := TakeChunk(gen, pool, coord, kernel);
      dict' := dict[coord := chunk];
      list' := list + [chunk];
      placed' := placed + [chunk];
      PlacementExtend(gen, kernel, c1, e1, p1, done, placed, list, dict, pool, coord, chunk);
    }

    /** One candidate of the acceptance pass: when it is not yet a key and is
        admissible it gets a chunk (PlaceChunk); otherwise nothing changes. */
    static method VisitCandidate(gen: MeshGenerator, coord: Coord, admissible: Coord -> bool, kernel: Vec3 -> seq<Triangle>,
                                 ghost c1: seq<Chunk>, ghost e1: map<Coord, Chunk>, ghost p1: seq<Chunk>, ghost done: seq<Coord>,
                                 ghost placed: seq<Chunk>, list: seq<Chunk>, dict: map<Coord, Chunk>, pool: seq<Chunk>)
        returns (list': seq<Chunk>, dict': map<Coord, Chunk>, pool': seq<Chunk>, ghost placed': seq<Chunk>, ghost done': seq<Coord>)
      requires Placement(gen, kernel, c1, e1, p1, done, placed, list, dict, pool) && coord !in done
      requires gen.layout == Streaming && gen.Ready() && KernelFits(kernel, gen.numPointsPerAxis)
      modifies p1, gen.triangleBuffer, gen.triCountBuffer
      ensures gen.Ready()
      ensures done' == done + (if Admits(e1.Keys, admissible, coord) then [coord] else [])
      ensures Placement(gen, kernel, c1, e1, p1, done', placed', list', dict', pool')
      ensures forall ch :: ch in placed' ==> ch in placed || ch in p1 || fresh(ch)
      ensures forall ch | ch in placed :: ch in placed'
      ensures forall ch | ch in p1 && ch !in placed' :: unchanged(ch)
    {
      assert coord in dict <==> coord in e1;
      assert pool != [] ==> pool[0] in p1;
      // The calls below take and return these predicates whole; their definitions stay folded.
      hide Placement, MeshGenerator.Ready;
      if coord !in dict && admissible(coord) {
        var chunk;
        chunk, list', dict', pool', placed' := PlaceChunk(gen, coord, kernel, c1, e1, p1, done, placed, list, dict, pool);
        done' := done + [coord];
      } else {
        list', dict', pool', placed', done' := list, dict, pool, placed, done;
        assert done + [] == done;
      }
    }

    /** The candidates up to step k have been visited and `done` are the ones accepted. */
    static ghost predicate Scanned(v: Coord, m: int, admissible: Coord -> bool, keys1: set<Coord>, k: int, done: seq<Coord>) {
      0 <= k && done == Accepted(Visited(v, m, k), keys1, admissible)
    }

    /** The z loop of the acceptance pass: the 2m+1 candidates v + (x, y, z). */
    static method AcceptRow(gen: MeshGenerator, v: Coord, m: int, x: int, y: int, admissible: Coord -> bool,
                            kernel: Vec3 -> seq<Triangle>, ghost c1: seq<Chunk>, ghost e1: map<Coord, Chunk>, ghost p1: seq<Chunk>,
                            ghost k0: int, ghost done0: seq<Coord>, ghost placed0: seq<Chunk>,
                            list0: seq<Chunk>, dict0: map<Coord, Chunk>, pool0: seq<Chunk>)
        returns (list: seq<Chunk>, dict: map<Coord, Chunk>, pool: seq<Chunk>, ghost placed: seq<Chunk>, ghost done: seq<Coord>)
      requires gen.layout == Streaming && gen.Ready() && KernelFits(kernel, gen.numPointsPerAxis)
      requires -m <= x <= m && -m <= y <= m && k0 == (x + m) * ((2 * m + 1) * (2 * m + 1)) + (y + m) * (2 * m + 1)
      requires Scanned(v, m, admissible, e1.Keys, k0, done0)
      requires Placement(gen, kernel, c1, e1, p1, done0, placed0, list0, dict0, pool0)
      modifies p1, gen.triangleBuffer, gen.triCountBuffer
      ensures gen.Ready()
      ensures Scanned(v, m, admissible, e1.Keys, k0 + (2 * m + 1), done)
      ensures Placement(gen, kernel, c1, e1, p1, done, placed, list, dict, pool)
      ensures forall ch :: ch in placed ==> ch in placed0 || ch in p1 || fresh(ch)
      ensures forall ch | ch in placed0 :: ch in placed
      ensures forall ch | ch in p1 && ch !in placed :: unchanged(ch)
    {
      // The calls below take and return these predicates whole; their definitions stay folded.
      hide Placement, MeshGenerator.Ready;
      list, dict, pool, placed, done := list0, dict0, pool0, placed0, done0;
      ghost var k := k0;
      var z := -m;
      while z <= m
        invariant -m <= z <= m + 1 && k == k0 + (z + m)
        invariant Scanned(v, m, admissible, e1.Keys, k, done)
        invariant gen.Ready()
        invariant Placement(gen, kernel, c1, e1, p1, done, placed, list, dict, pool)
        invariant unchanged(gen)
        invariant forall ch :: ch in placed ==> ch in placed0 || ch in p1 || fresh(ch)
        invariant forall ch | ch in placed0 :: ch in placed
        invariant forall ch | ch in p1 && ch !in placed :: unchanged(ch)
      {
        var coord := Coord(x, y, z).Plus(v);
        VisitNext(v, m, x, y, z);
        AcceptedSnoc(Visited(v, m, k), coord, e1.Keys, admissible);
        list, dict, pool, placed, done := VisitCandidate(gen, coord, admissible, kernel, c1, e1, p1, done, placed, list, dict, pool);
        k := k + 1;
        z := z + 1;
      }
    }

    /** The y loop of the acceptance pass: the (2m+1)^2 candidates v + (x, y, z). */
    static method AcceptPlane(gen: MeshGenerator, v: Coord, m: int, x: int, admissible: Coord -> bool,
                              kernel: Vec3 -> seq<Triangle>, ghost c1: seq<Chunk>, ghost e1: map<Coord, Chunk>, ghost p1: seq<Chunk>,
                              ghost k0: int, ghost done0: seq<Coord>, ghost placed0: seq<Chunk>,
                              list0: seq<Chunk>, dict0: map<Coord, Chunk>, pool0: seq<Chunk>)
        returns (list: seq<Chunk>, dict: map<Coord, Chunk>, pool: seq<Chunk>, ghost placed: seq<Chunk>, ghost done: seq<Coord>)
      requires gen.layout == Streaming && gen.Ready() && KernelFits(kernel, gen.numPointsPerAxis)
      requires -m <= x <= m && k0 == (x + m) * ((2 * m + 1) * (2 * m + 1))
      requires Scanned(v, m, admissible, e1.Keys, k0, done0)
      requires Placement(gen, kernel, c1, e1, p1, done0, placed0, list0, dict0, pool0)
      modifies p1, gen.triangleBuffer, gen.triCountBuffer
      ensures gen.Ready()
      ensures Scanned(v, m, admissible, e1.Keys, k0 + (2 * m + 1) * (2 * m + 1), done)
      ensures Placement(gen, kernel, c1, e1, p1, done, placed, list, dict, pool)
      ensures forall ch :: ch in placed ==> ch in placed0 || ch in p1 || fresh(ch)
      ensures forall ch | ch in placed0 :: ch in placed
      ensures forall ch | ch in p1 && ch !in placed :: unchanged(ch)
    {
      // The calls below take and return these predicates whole; their definitions stay folded.
      hide Placement, MeshGenerator.Ready;
      list, dict, pool, placed, done := list0, dict0, pool0, placed0, done0;
      ghost var s := 2 * m + 1;
      ghost var k := k0;
      var y := -m;
      while y <= m
        invariant -m <= y <= m + 1 && k == k0 + (y + m) * s
        invariant Scanned(v, m, admissible, e1.Keys, k, done)
        invariant gen.Ready()
        invariant Placement(gen, kernel, c1, e1, p1, done, placed, list, dict, pool)
        invariant unchanged(gen)
        invariant forall ch :: ch in placed ==> ch in placed0 || ch in p1 || fresh(ch)
        invariant forall ch | ch in placed0 :: ch in placed
        invariant forall ch | ch in p1 && ch !in placed :: unchanged(ch)
      {
        ghost var before := placed;
        list, dict, pool, placed, done := AcceptRow(gen, v, m, x, y, admissible, kernel, c1, e1, p1, k, done, placed, list, dict, pool);
        MulSucc(y + m, s);
        k := k + s;
        y := y + 1;
      }
    }

    /** The candidate loops of the acceptance pass, on the list, dictionary and
        pool they extend: every coordinate v + (x, y, z) with x, y, z in [-m, m]
        that is not yet a key and is admissible gets a chunk, taken from the
        pool's front while the pool lasts and created afterwards. */
    static method AcceptInto(gen: MeshGenerator, v: Coord, m: int, admissible: Coord -> bool, kernel: Vec3 -> seq<Triangle>,
                             c1: seq<Chunk>, e1: map<Coord, Chunk>, p1: seq<Chunk>)
        returns (list: seq<Chunk>, dict: map<Coord, Chunk>, pool: seq<Chunk>, ghost placed: seq<Chunk>)
      requires gen.layout == Streaming && gen.Ready() && KernelFits(kernel, gen.numPointsPerAxis)
      requires Distinct(c1 + p1) && Registry(c1, e1)
      modifies p1, gen.triangleBuffer, gen.triCountBuffer
      ensures gen.Ready()
      ensures Placement(gen, kernel, c1, e1, p1, Accepted(Candidates(v, m), e1.Keys, admissible), placed, list, dict, pool)
      ensures forall ch :: ch in placed ==> ch in p1 || fresh(ch)
      ensures forall ch | ch in c1 :: unchanged(ch)
      ensures forall ch | ch in pool :: ch in p1 && unchanged(ch)
    {
      // The calls below take and return these predicates whole; their definitions stay folded.
      hide Placement, MeshGenerator.Ready;
      list, dict, pool := c1, e1, p1;
      ghost var plane := (2 * m + 1) * (2 * m + 1);
      ghost var k := 0;
      ghost var done: seq<Coord> := [];
      placed := [];
      PlacementStart(gen, kernel, c1, e1, p1);
      var x := -m;
      while x <= m
        invariant -m <= x && (x <= m + 1 || x == -m) && k == (x + m) * plane
        invariant Scanned(v, m, admissible, e1.Keys, k, done)
        invariant gen.Ready()
        invariant Placement(gen, kernel, c1, e1, p1, done, placed, list, dict, pool)
        invariant unchanged(gen)
        invariant forall ch :: ch in placed ==> ch in p1 || fresh(ch)
        invariant forall ch | ch in p1 && ch !in placed :: unchanged(ch)
      {
        list, dict, pool, placed, done := AcceptPlane(gen, v, m, x, admissible, kernel, c1, e1, p1, k, done, placed, list, dict, pool);
        MulSucc(x + m, plane);
        k := k + plane;
        x := x + 1;
      }
      CandidatesCount(v, m);
      VisitedPrefix(v, m, k);
      assert Candidates(v, m)[..k] == Candidates(v, m);
      PoolUntaken(gen, kernel, c1, e1, p1, done, placed, list, dict, pool);
      DistinctApart(c1, p1);
    }

    /** The acceptance pass on the generator's own list, dictionary and pool. When
        every listed coordinate and every admissible one pass `inRange`, so does
        every coordinate listed afterwards. */
    method AcceptVisibleChunks(v: Coord, m: int, admissible: Coord -> bool, kernel: Vec3 -> seq<Triangle>,
                               ghost inRange: Coord -> bool)
        returns (ghost placed: seq<Chunk>)
      requires Valid() && structuresReady && gen.Ready() && KernelFits(kernel, gen.numPointsPerAxis)
      requires forall c :: c in existingChunks ==> inRange(c)
      requires forall c :: admissible(c) ==> inRange(c)
      modifies this, reusableChunks, gen.triangleBuffer, gen.triCountBuffer
      ensures Valid() && structuresReady && gen.Ready() && viewDistance == old(viewDistance)
      ensures Placement(gen, kernel, old(chunks), old(existingChunks), old(reusableChunks),
                        Accepted(Candidates(v, m), old(existingChunks).Keys, admissible),
                        placed, chunks, existingChunks, reusableChunks)
      ensures forall ch :: ch in placed ==> ch in old(reusableChunks) || fresh(ch)
      ensures forall ch :: ch in chunks ==> inRange(ch.coord)
      ensures forall ch | ch in old(chunks) :: unchanged(ch)
      ensures forall ch | ch in reusableChunks :: ch in old(reusableChunks) && unchanged(ch)
    {
      ghost var e1 := existingChunks;
      ghost var done := Accepted(Candidates(v, m), e1.Keys, admissible);
      // The calls below take and return these predicates whole; their definitions stay folded.
      hide Placement, MeshGenerator.Ready, MeshGenerator.Valid, KernelFits, Accepted, Candidates;
      chunks, existingChunks, reusableChunks, placed :=
        AcceptInto(gen, v, m, admissible, kernel, chunks, existingChunks, reusableChunks);
      PlacementListing(gen, kernel, old(chunks), e1, old(reusableChunks), done,
                       placed, chunks, existingChunks, reusableChunks);
      ListedInRange(Candidates(v, m), admissible, inRange, e1, chunks, existingChunks, reusableChunks);
    }

    /** InitiateVisibleChunks: nothing happens before the structures exist;
        otherwise the eviction pass and then the acceptance pass, around the
        viewer's rounded coordinates and out to ceil(viewDistance / boundsSize)
        chunks on every axis. `visible` is the camera's frustum test. */
    method InitiateVisibleChunks(position: Vec3, kernel: Vec3 -> seq<Triangle>, visible: Coord -> bool)
        returns (ghost placed: seq<Chunk>)
      requires Valid() && gen.Ready() && KernelFits(kernel, gen.numPointsPerAxis)
      modifies this, chunks, reusableChunks, gen.triangleBuffer, gen.triCountBuffer
      ensures Valid() && gen.Ready()
      ensures structuresReady == old(structuresReady) && viewDistance == old(viewDistance)
      ensures !structuresReady ==> chunks == [] && existingChunks == map[] && reusableChunks == []
      ensures !structuresReady ==> unchanged(gen.triangleBuffer, gen.triCountBuffer)
      ensures structuresReady ==>
                var view := ViewAt(position);
                var e1 := InRangeEntries(old(existingChunks), InRange(view));
                var p1 := old(reusableChunks + Evicted(chunks, InRange(view)));
                && Placement(gen, kernel, old(Survivors(chunks, InRange(view))), e1, p1,
                             Accepted(Candidates(ViewerCoordinates(view), MaxChunksInView(view)), e1.Keys, Admissible(view, visible)),
                             placed, chunks, existingChunks, reusableChunks)
                && (forall ch :: ch in placed ==> ch in p1 || fresh(ch))
                && (forall ch :: ch in chunks ==> InView(view, ch.coord))
      ensures structuresReady ==> forall ch | ch in old(chunks) && old(InRange(ViewAt(position))(ch.coord)) :: unchanged(ch)
      ensures structuresReady ==> forall ch | ch in reusableChunks :: (ch in old(reusableChunks) || ch in old(chunks)) && unchanged(ch)
    {
      ValidParts();
      // Valid's parts are unfolded above; the calls below take and return the rest whole.
      hide Valid, Placement, MeshGenerator.Ready, KernelFits, Accepted, Candidates, Survivors, Evicted;
      if !structuresReady {
        placed := [];
        return;
      }
      var view := ViewAt(position);
      var viewerCoordinates := ViewerCoordinates(view);
      var maxChunksInView := MaxChunksInView(view);
      // The pool the acceptance pass may write to holds only chunks this pass may write to.
      PoolOrigins(chunks, reusableChunks, InRange(view));
      EvictOutOfView(InRange(view));
      placed := AcceptVisibleChunks(viewerCoordinates, maxChunksInView, Admissible(view, visible), kernel,
                                    InRange(view));
    }

    /** Run: the buffers, then the pass. */
    method Run(playing: bool, position: Vec3, kernel: Vec3 -> seq<Triangle>, visible: Coord -> bool)
      requires Valid() && gen.Valid() && KernelFits(kernel, gen.numPointsPerAxis)
      modifies this, chunks, reusableChunks, gen, gen.pointsBuffer, gen.triangleBuffer, gen.triCountBuffer
      ensures Valid() && gen.Ready()
      ensures structuresReady == old(structuresReady) && viewDistance == old(viewDistance)
      ensures structuresReady ==> forall ch :: ch in chunks ==> InView(ViewAt(position), ch.coord)
      ensures structuresReady ==> forall ch | ch in old(chunks) && old(InRange(ViewAt(position))(ch.coord)) :: unchanged(ch)
      ensures structuresReady ==> forall ch | ch in reusableChunks :: (ch in old(reusableChunks) || ch in old(chunks)) && unchanged(ch)
    {
      gen.CreateBuffers(playing);
      // The calls below take and return these predicates whole; their definitions stay folded.
      hide Placement, MeshGenerator.Ready;
      var _ := InitiateVisibleChunks(position, kernel, visible);
    }

    /** The state eviction leaves behind is again a valid registry. */
    lemma EvictionKeepsValid(s0: seq<Chunk>, p0: seq<Chunk>, e0: map<Coord, Chunk>, inRange: Coord -> bool)
      requires gen.layout == Streaming && Distinct(s0 + p0) && Registry(s0, e0)
      requires !structuresReady ==> s0 == [] && e0 == map[] && p0 == []
      requires chunks == Survivors(s0, inRange) && reusableChunks == p0 + Evicted(s0, inRange)
      requires existingChunks == InRangeEntries(e0, inRange)
      ensures Valid()
    {
      EvictionKeepsRegistry(s0, p0, e0, inRange);
    }
  }

  /** Every chunk of the pool after eviction was pooled or listed before it. */
  lemma PoolOrigins(s: seq<Chunk>, p: seq<Chunk>, inRange: Coord -> bool)
    ensures forall i :: 0 <= i < |p + Evicted(s, inRange)| ==> (p + Evicted(s, inRange))[i] in p || (p + Evicted(s, inRange))[i] in s
  {
    var q := p + Evicted(s, inRange);
    forall i | 0 <= i < |q|
      ensures q[i] in p || q[i] in s
    {
      EvictionExactly(s, inRange, q[i]);
    }
  }

  /** Eviction keeps every listed chunk within range, and pools no chunk that was
      neither pooled nor listed. */
  lemma EvictionMembers(s: seq<Chunk>, p: seq<Chunk>, inRange: Coord -> bool)
    ensures forall ch | ch in s && inRange(ch.coord) :: ch in Survivors(s, inRange)
    ensures forall ch | ch in p + Evicted(s, inRange) :: ch in p || ch in s
  {
    forall ch | ch in s && inRange(ch.coord)
      ensures ch in Survivors(s, inRange)
    {
      EvictionExactly(s, inRange, ch);
    }
    forall ch | ch in p + Evicted(s, inRange)
      ensures ch in p || ch in s
    {
      EvictionExactly(s, inRange, ch);
    }
  }

  /** Step i of the eviction loop on the list: a chunk in range stays at index
      i, one out of range is removed from there. */
  lemma EvictionListStep(s0: seq<Chunk>, inRange: Coord -> bool, i: int)
    requires 0 <= i < |s0|
    ensures var c := s0[i];
            var list := s0[..i + 1] + Survivors(s0[i + 1..], inRange);
            && i < |list| && list[i] == c
            && (inRange(c.coord) ==> list == s0[..i] + Survivors(s0[i..], inRange))
            && (!inRange(c.coord) ==> list[..i] + list[i + 1..] == s0[..i] + Survivors(s0[i..], inRange))
  {
    var c := s0[i];
    SurvivorsStep(s0, i, inRange);
    var kept := Survivors(s0[i + 1..], inRange);
    var list := s0[..i + 1] + kept;
    assert list == s0[..i] + [c] + kept;
    if !inRange(c.coord) {
      assert list[..i] + list[i + 1..] == s0[..i] + kept;
    } else {
      assert list == s0[..i] + ([c] + kept);
    }
  }

  /** Step i of the eviction loop on the pool: an out-of-range chunk joins its back. */
  lemma EvictionPoolStep(s0: seq<Chunk>, p0: seq<Chunk>, inRange: Coord -> bool, i: int)
    requires 0 <= i < |s0|
    ensures var c := s0[i];
            var pool := p0 + Evicted(s0[i + 1..], inRange);
            && (inRange(c.coord) ==> pool == p0 + Evicted(s0[i..], inRange))
            && (!inRange(c.coord) ==> pool + [c] == p0 + Evicted(s0[i..], inRange))
  {
    SurvivorsStep(s0, i, inRange);
  }

  /** Step i of the eviction loop on the dictionary: an out-of-range chunk's
      coordinate leaves it. */
  lemma EvictionDictStep(s0: seq<Chunk>, e0: map<Coord, Chunk>, inRange: Coord -> bool, i: int)
    requires 0 <= i < |s0| && Distinct(s0) && Registry(s0, e0)
    ensures var c := s0[i];
            var dict := KeptEntries(e0, inRange, CoordsOf(s0[..i + 1]));
            && (inRange(c.coord) ==> dict == KeptEntries(e0, inRange, CoordsOf(s0[..i])))
            && (!inRange(c.coord) ==> dict - {c.coord} == KeptEntries(e0, inRange, CoordsOf(s0[..i])))
  {
    var c := s0[i];
    CoordsOfStep(s0, i);
    RegistryCoordsDistinct(s0, e0, i);
    KeptEntriesStep(e0, inRange, CoordsOf(s0[..i + 1]), c.coord);
    assert CoordsOf(s0[..i + 1]) - {c.coord} == CoordsOf(s0[..i]);
  }

  /** Once the loop reaches index 0 nothing is pending: the loop's state is the
      result of the whole pass. */
  lemma EvictionDone(s0: seq<Chunk>, p0: seq<Chunk>, e0: map<Coord, Chunk>, inRange: Coord -> bool,
                     list: seq<Chunk>, pool: seq<Chunk>, dict: map<Coord, Chunk>)
    requires list == s0[..0] + Survivors(s0[0..], inRange)
    requires pool == p0 + Evicted(s0[0..], inRange)
    requires dict == KeptEntries(e0, inRange, CoordsOf(s0[..0]))
    ensures list == Survivors(s0, inRange) && pool == p0 + Evicted(s0, inRange)
    ensures dict == InRangeEntries(e0, inRange)
  {
    assert s0[..0] == [] && s0[0..] == s0;
    assert CoordsOf(s0[..0]) == {};
  }

  /** Visiting one more candidate accepts it exactly when it is admitted; one
      that was not visited before was not accepted before. */
  lemma AcceptedSnoc(cands: seq<Coord>, c: Coord, keys: set<Coord>, admissible: Coord -> bool)
    ensures Accepted(cands + [c], keys, admissible)
              == Accepted(cands, keys, admissible) + (if Admits(keys, admissible, c) then [c] else [])
    ensures c !in cands ==> c !in Accepted(cands, keys, admissible)
  {
    assert (cands + [c])[..|cands|] == cands;
    AcceptedExactly(cands, keys, admissible, c);
  }

  /** Visiting candidate k accepts it exactly when it is admitted; since the
      candidates are distinct it was not accepted before. */
  lemma AcceptedStep(cands: seq<Coord>, k: int, keys: set<Coord>, admissible: Coord -> bool)
    requires Distinct(cands) && 0 <= k < |cands|
    ensures Accepted(cands[..k + 1], keys, admissible)
              == Accepted(cands[..k], keys, admissible) + (if Admits(keys, admissible, cands[k]) then [cands[k]] else [])
    ensures cands[k] !in Accepted(cands[..k], keys, admissible)
  {
    assert cands[..k + 1][..k] == cands[..k];
    AcceptedExactly(cands[..k], keys, admissible, cands[k]);
    forall j | 0 <= j < k
      ensures cands[j] != cands[k]
    {
      DistinctAt(cands, j, k);
    }
  }

  /** After eviction the survivors, the enlarged pool and the in-range entries still
      form a registry: no chunk lost, duplicated or listed twice. */
  lemma EvictionKeepsRegistry(s0: seq<Chunk>, p0: seq<Chunk>, e0: map<Coord, Chunk>, inRange: Coord -> bool)
    requires Distinct(s0 + p0) && Registry(s0, e0)
    ensures Distinct(Survivors(s0, inRange) + (p0 + Evicted(s0, inRange)))
    ensures Registry(Survivors(s0, inRange), InRangeEntries(e0, inRange))
  {
    EvictionKeepsDistinct(s0, p0, inRange);
    DistinctParts(s0, p0);
    EvictionKeepsEntries(s0, e0, inRange);
  }

  /** Eviction only moves chunks from the list to the pool, so none occurs twice. */
  lemma EvictionKeepsDistinct(s0: seq<Chunk>, p0: seq<Chunk>, inRange: Coord -> bool)
    requires Distinct(s0 + p0)
    ensures Distinct(Survivors(s0, inRange) + (p0 + Evicted(s0, inRange)))
  {
    var kept, out := Survivors(s0, inRange), Evicted(s0, inRange);
    EvictionPartition(s0, inRange);
    assert multiset(kept + (p0 + out)) == multiset(s0 + p0);
    DistinctPermutation(s0 + p0, kept + (p0 + out));
  }

  /** The surviving chunks are exactly the ones the in-range entries map to. */
  lemma EvictionKeepsEntries(s0: seq<Chunk>, e0: map<Coord, Chunk>, inRange: Coord -> bool)
    requires Distinct(s0) && Registry(s0, e0)
    ensures Registry(Survivors(s0, inRange), InRangeEntries(e0, inRange))
  {
    var kept := Survivors(s0, inRange);
    var e := InRangeEntries(e0, inRange);
    forall i | 0 <= i < |kept|
      ensures kept[i].coord in e && e[kept[i].coord] == kept[i]
    {
      EvictionExactly(s0, inRange, kept[i]);
    }
    forall c | c in e
      ensures e[c] in kept && e[c].coord == c
    {
      EvictionExactly(s0, inRange, e0[c]);
    }
  }

  /** One step of the downward eviction loop, stated on Survivors and Evicted. */
  lemma SurvivorsStep(s: seq<Chunk>, i: int, inRange: Coord -> bool)
    requires 0 <= i < |s|
    ensures Survivors(s[i..], inRange) == (if inRange(s[i].coord) then [s[i]] else []) + Survivors(s[i + 1..], inRange)
    ensures Evicted(s[i..], inRange) == Evicted(s[i + 1..], inRange) + (if inRange(s[i].coord) then [] else [s[i]])
    ensures s[..i + 1] == s[..i] + [s[i]]
  {
    assert s[i..][1..] == s[i + 1..];
  }

  lemma CoordsOfStep(s: seq<Chunk>, i: int)
    requires 0 <= i < |s|
    ensures CoordsOf(s[..i + 1]) == CoordsOf(s[..i]) + {s[i].coord}
  {
    assert s[..i + 1] == s[..i] + [s[i]];
  }

  /** Once every coordinate the pass started with and every admissible one pass
      `inRange`, every chunk listed after the pass does: an accepted coordinate
      was admissible. */
  lemma ListedInRange(cands: seq<Coord>, admissible: Coord -> bool, inRange: Coord -> bool,
                      e1: map<Coord, Chunk>, list: seq<Chunk>, dict: map<Coord, Chunk>, pool: seq<Chunk>)
    requires forall c :: c in e1 ==> inRange(c)
    requires forall c :: admissible(c) ==> inRange(c)
    requires Listing(e1, Accepted(cands, e1.Keys, admissible), list, dict, pool)
    ensures forall ch :: ch in list ==> inRange(ch.coord)
  {
    var done := Accepted(cands, e1.Keys, admissible);
    forall ch | ch in list
      ensures inRange(ch.coord)
    {
      var i :| 0 <= i < |list| && list[i] == ch;
      assert ch.coord in dict;
      if ch.coord in done {
        AcceptedExactly(cands, e1.Keys, admissible, ch.coord);
      }
    }
  }
}
