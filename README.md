# Chunked marching-cubes terrain: chunk bookkeeping in Dafny

This project models the CPU-side bookkeeping of a Unity terrain generator that
builds a marching-cubes mesh chunk by chunk. It covers the three generator
classes under `Assets/Scripts/Generators/Mesh/`:

- **AbstractMeshGenerator** (`mesh_generator.dfy`, `buffers.dfy`,
  `geometry.dfy`) holds the shared state.
  - `CreateBuffers` sizes the three GPU working buffers from
    `numPointsPerAxis` and decides whether to keep or reallocate them.
  - `ReleaseBuffers` releases them.
  - `CreateChunk` makes a chunk.
  - `UpdateChunkMesh` builds one chunk's mesh: it resets the append counter,
    dispatches enough thread groups, reads back the reported number of
    triangles from offset 0, and flattens them into a vertex array with an
    identity index array.

  The GPU buffers are a small `ComputeBuffer` class with an append counter,
  a release flag and a data sequence. The `Triangle` indexer is
  `Geometry.Vertex`.

- **ContinuesMeshGenerator** (`continues_generator.dfy`, `streaming.dfy`,
  `registry.dfy`) is the streaming generator. It keeps a list of active
  chunks, a dictionary from lattice coordinate to chunk, and a FIFO pool of
  reusable chunks. `InitiateVisibleChunks` runs two passes:
  - **Eviction** walks the list from its end. A chunk whose clamped per-axis
    gap to the viewer has a squared length strictly above viewDistance² is
    moved to the pool and out of the dictionary.
  - **Acceptance** scans the cube of candidate coordinates around the
    viewer's rounded cell, of radius `ceil(viewDistance / boundsSize)`. Every
    new coordinate that is in range and visible gets a chunk. The chunk is
    the pool's front chunk while the pool lasts, and a new one after that.
    Its mesh is built at once.

  The model proves the following:
  - After the call, the list, the dictionary and the pool still form a
    registry: no chunk twice, and the dictionary maps exactly the active
    coordinates to the chunks carrying them.
  - The list is the surviving chunks, in order, followed by one chunk per
    accepted coordinate.
  - The accepted coordinates are exactly the candidates that are new,
    in range and visible, in loop order.
  - Every active chunk is in range.
  - Surviving chunks, and pooled chunks the pass does not take, keep their
    coordinate and mesh.

- **EditorMeshGenerator** (`editor_generator.dfy`) is the batch generator for
  the editor.
  - `InitChunks` reconciles a numChunks.x × numChunks.y × numChunks.z block,
    taken in x-outer, z-inner order, with the chunks already in the scene.
    Each coordinate takes the first remaining scene chunk that carries it,
    or a new chunk when none does. Every unclaimed scene chunk is retired,
    including a second chunk at a coordinate that was already claimed.
    `Plan` states this reconciliation as a function, and the nested loops
    are proved to compute it.
  - `Run` composes CreateBuffers, InitChunks, one mesh build per chunk in
    list order, and ReleaseBuffers.
  - The gating in `RequestMeshUpdate`, `Update` and `OnValidate` is modelled
    as the `autoUpdateInEditor`, `autoUpdateInGame` and `settingsUpdated`
    fields.

The two `CentreFromCoord` conventions are `Geometry.StreamingCentre` and
`Geometry.BatchCentre`. `Lattice` holds the loop order of a block of
coordinates, and `Mathf.RoundToInt` and `Mathf.CeilToInt` on exact reals.
`RealArith` holds a few ordered-field facts.

The model takes these things as parameters:
- The extraction pipeline (density generation plus the marching-cubes
  kernel) is a function `kernel` from a chunk centre to the triangles it
  appends.
- The camera-frustum test is a predicate `visible` on coordinates.
- `Application.isPlaying` is a parameter `playing`.
- The scene's chunks (`FindObjectsOfType<Chunk>`) are a parameter `scene`.

## Model

Source cells are paths relative to the repository root.

| member | source | states |
|---|---|---|
| Geometry.Vertex | Assets/Scripts/Generators/Mesh/AbstractMeshGenerator.cs:136-150 | Computes the Triangle indexer: corner a at 0, b at 1, and c at every other index. |
| Geometry.VertexReadsCorners | Assets/Scripts/Generators/Mesh/AbstractMeshGenerator.cs:136-150 | The indexer reads corners a, b, c at 0, 1, 2, so the three reads rebuild the triangle; every other index reads c. |
| Geometry.Flatten | Assets/Scripts/Generators/Mesh/AbstractMeshGenerator.cs:71-72 | The flattened vertex list has exactly three vertices per triangle. |
| Geometry.FlattenAt | Assets/Scripts/Generators/Mesh/AbstractMeshGenerator.cs:74-79 | Vertex 3i+j of the flattened list is corner j of triangle i, so flattening keeps the triangle order. |
| Geometry.FlattenAppend | Assets/Scripts/Generators/Mesh/AbstractMeshGenerator.cs:74-79 | Flattening distributes over concatenation of triangle lists. |
| MeshGeneration.FlattenTriangles | Assets/Scripts/Generators/Mesh/AbstractMeshGenerator.cs:71-79 | The nested loop yields fresh vertex and index arrays of length 3·triangleCount. The vertex array equals the flattened triangles and the index array is the identity (no welded vertices). |
| Buffers.PointCount | Assets/Scripts/Generators/Mesh/AbstractMeshGenerator.cs:89 | Computes numPoints = n³, the size of the points buffer. |
| Buffers.VoxelCount | Assets/Scripts/Generators/Mesh/AbstractMeshGenerator.cs:90-91 | Computes numVoxels = (n−1)³, one voxel fewer than points along each axis. |
| Buffers.MaxTriangleCount | Assets/Scripts/Generators/Mesh/AbstractMeshGenerator.cs:92 | Computes maxTriangleCount = 5·numVoxels, the size of the triangle buffer. |
| Buffers.ThreadGroups | Assets/Scripts/Generators/Mesh/AbstractMeshGenerator.cs:38-39 | ceil(numVoxelsPerAxis / 8): 8·g covers every voxel and one group fewer would not. |
| Buffers.PointSpacing | Assets/Scripts/Generators/Mesh/AbstractMeshGenerator.cs:40 | numPointsPerAxis − 1 spacings span exactly boundsSize. |
| Buffers.ComputeBuffer.constructor | Assets/Scripts/Generators/Mesh/AbstractMeshGenerator.cs:99-101 | A new buffer has the requested count, blank contents, append counter 0, and is not released. |
| Buffers.ComputeBuffer.SetCounterValue | Assets/Scripts/Generators/Mesh/AbstractMeshGenerator.cs:50 | Sets the append counter and leaves the contents and release flag alone. |
| Buffers.ComputeBuffer.Append | Assets/Scripts/Generators/Mesh/AbstractMeshGenerator.cs:56 | Appending writes the items at the counter and advances it by their number; nothing else changes. |
| Buffers.Dispatch | Assets/Scripts/Generators/Mesh/AbstractMeshGenerator.cs:56 | With enough thread groups for every voxel, the kernel's triangles are appended at the counter, which advances by their number. |
| Buffers.CopyCount | Assets/Scripts/Generators/Mesh/AbstractMeshGenerator.cs:59 | The source buffer's counter is written at the given offset of the count buffer; nothing else changes. |
| Buffers.ComputeBuffer.GetData | Assets/Scripts/Generators/Mesh/AbstractMeshGenerator.cs:61-66 | Reading back n elements from start gives exactly the n stored elements in order. |
| Buffers.ComputeBuffer.Release | Assets/Scripts/Generators/Mesh/AbstractMeshGenerator.cs:122-124 | Marks the buffer released; its contents and counter are unchanged. |
| Buffers.CellTrianglesFitCapacity | Assets/Scripts/Generators/Mesh/AbstractMeshGenerator.cs:90-92 | If each of the (n−1)³ voxels emits at most five triangles, all of them fit the 5·(n−1)³ capacity. |
| Buffers.ConcatBound | Assets/Scripts/Generators/Mesh/AbstractMeshGenerator.cs:92 | Concatenating cells of at most `bound` triangles gives at most bound·cells triangles. |
| Buffers.PointCountDeterminesResolution | Assets/Scripts/Generators/Mesh/AbstractMeshGenerator.cs:96 | Equal point counts n³ = m³ mean equal resolutions, hence equal triangle capacity, so the keep test compares only the points buffer. |
| MeshGeneration.KernelFits | Assets/Scripts/Generators/Mesh/AbstractMeshGenerator.cs:92 | Holds when the kernel never appends more than maxTriangleCount triangles for any centre. |
| MeshGeneration.MarchesVoxels | Assets/Scripts/Generators/Mesh/AbstractMeshGenerator.cs:56 | Holds when the kernel appends, for a centre, the triangles of each of the (n−1)³ voxels, in some order. |
| MeshGeneration.VoxelwiseKernelFits | Assets/Scripts/Generators/Mesh/AbstractMeshGenerator.cs:89-92 | A kernel that appends at most five triangles per voxel never overflows the triangle buffer. |
| MeshGeneration.Chunk.constructor | Assets/Scripts/Generators/Mesh/AbstractMeshGenerator.cs:108-109 | A new chunk carries the given coordinate and an empty mesh. |
| MeshGeneration.MeshGenerator.constructor | Assets/Scripts/Generators/Mesh/AbstractMeshGenerator.cs:11-22 | A generator takes numChunks, boundsSize and numPointsPerAxis in [2, 100], and starts with no buffers. |
| MeshGeneration.MeshGenerator.KeepsBuffers | Assets/Scripts/Generators/Mesh/AbstractMeshGenerator.cs:96 | Computes the keep test: playing, a points buffer exists, and its count is n³. |
| MeshGeneration.MeshGenerator.CreateBuffers | Assets/Scripts/Generators/Mesh/AbstractMeshGenerator.cs:87-102 | Afterwards the buffers exist with n³ points, 5·(n−1)³ triangles and one counter. When playing and the points buffer already holds n³ elements, the three buffers are kept untouched. Otherwise three fresh, unreleased buffers are allocated with counter 0. The old buffers are released first only when playing; outside play mode they are left as they were. |
| MeshGeneration.MeshGenerator.ReleaseBuffers | Assets/Scripts/Generators/Mesh/AbstractMeshGenerator.cs:120-125 | Every existing buffer ends released with its contents unchanged; absent buffers are skipped, and the sizing invariant is kept. |
| MeshGeneration.MeshGenerator.CreateChunk | Assets/Scripts/Generators/Mesh/AbstractMeshGenerator.cs:104-111 | Returns a fresh chunk carrying the given coordinate. |
| MeshGeneration.MeshGenerator.CentreFromCoord | Assets/Scripts/Generators/Mesh/AbstractMeshGenerator.cs:127 | Computes the centre of a chunk under the generator's convention: the streaming one or the batch one. |
| MeshGeneration.MeshGenerator.UpdateChunkMesh | Assets/Scripts/Generators/Mesh/AbstractMeshGenerator.cs:36-85 | After the counter reset, dispatch and readback, the reported count equals the number of triangles emitted for the chunk's centre. The chunk's vertices are exactly those triangles flattened, its indices are the identity, its coordinate is unchanged, and the buffers stay sized for n. |
| Geometry.StreamingCentre | Assets/Scripts/Generators/Mesh/ContinuesMeshGenerator.cs:115-118 | Computes the streaming centre coord·boundsSize. |
| Geometry.BatchAxis | Assets/Scripts/Generators/Mesh/EditorMeshGenerator.cs:57-61 | Computes one axis of the batch centre: −n·boundsSize/2 + c·boundsSize + boundsSize/2. |
| Geometry.BatchCentre | Assets/Scripts/Generators/Mesh/EditorMeshGenerator.cs:57-61 | Computes the batch centre, one BatchAxis per axis. |
| Geometry.BatchAxisSymmetric | Assets/Scripts/Generators/Mesh/EditorMeshGenerator.cs:57-61 | On each axis the batch centres of cells c and n−1−c are opposite. |
| Geometry.BatchCentreSymmetric | Assets/Scripts/Generators/Mesh/EditorMeshGenerator.cs:57-61 | The batch block is centred on the origin: centre(c) + centre(numChunks−1−c) = 0 on every axis. |
| Geometry.CentresOneCellApart | Assets/Scripts/Generators/Mesh/EditorMeshGenerator.cs:57-61 | Under both conventions, neighbouring cells' centres lie exactly boundsSize apart. |
| Geometry.BatchIsShiftedStreaming | Assets/Scripts/Generators/Mesh/EditorMeshGenerator.cs:57-61 | The batch centre is the streaming centre coord·boundsSize shifted by −numChunks·boundsSize/2 + boundsSize/2. |
| Lattice.CeilToInt | Assets/Scripts/Generators/Mesh/ContinuesMeshGenerator.cs:53 | Mathf.CeilToInt yields the least integer not below its argument. |
| Lattice.RoundToInt | Assets/Scripts/Generators/Mesh/ContinuesMeshGenerator.cs:51 | Mathf.RoundToInt yields an integer within 0.5 of its argument, and the even one at a tie. |
| Lattice.Block | Assets/Scripts/Generators/Mesh/EditorMeshGenerator.cs:72-76 | The loop enumeration of a block has nx·ny·nz coordinates (zero along an empty axis). |
| Lattice.BlockAt | Assets/Scripts/Generators/Mesh/EditorMeshGenerator.cs:72-76 | The triple loop visits coordinate (x, y, z) at step (x·ny + y)·nz + z. |
| Lattice.BlockInverse | Assets/Scripts/Generators/Mesh/EditorMeshGenerator.cs:72-76 | Every step of the loop visits a coordinate of the block, and that coordinate's step is that step. |
| Lattice.BlockMembers | Assets/Scripts/Generators/Mesh/EditorMeshGenerator.cs:72-76 | The loop visits exactly the coordinates with 0 ≤ c < numChunks on every axis. |
| Lattice.BlockDistinct | Assets/Scripts/Generators/Mesh/EditorMeshGenerator.cs:72-76 | The loop never visits a coordinate twice. |
| ChunkStreaming.AxisGap | Assets/Scripts/Generators/Mesh/ContinuesMeshGenerator.cs:61-64 | Computes one axis of o clamped at zero: max(|p − centre| − boundsSize/2, 0). |
| ChunkStreaming.ClampedOffset | Assets/Scripts/Generators/Mesh/ContinuesMeshGenerator.cs:61-64 | Computes the vector of the three clamped per-axis gaps. |
| ChunkStreaming.Gaps | Assets/Scripts/Generators/Mesh/ContinuesMeshGenerator.cs:60-64 | Computes the clamped gaps from the viewer to the streaming centre of a coordinate. |
| ChunkStreaming.SqrDistance | Assets/Scripts/Generators/Mesh/ContinuesMeshGenerator.cs:64 | Computes sqrDst, the squared length of the clamped gaps. |
| ChunkStreaming.InView | Assets/Scripts/Generators/Mesh/ContinuesMeshGenerator.cs:66 | Computes the range test sqrDst ≤ viewDistance², which both passes use (acceptance repeats it at line 88). |
| ChunkStreaming.ViewerCoordinates | Assets/Scripts/Generators/Mesh/ContinuesMeshGenerator.cs:49-51 | Computes the viewer coordinates: position/boundsSize rounded per axis. |
| ChunkStreaming.MaxChunksInView | Assets/Scripts/Generators/Mesh/ContinuesMeshGenerator.cs:53 | Computes the radius ceil(viewDistance/boundsSize). |
| ChunkStreaming.AxisGapMeaning | Assets/Scripts/Generators/Mesh/ContinuesMeshGenerator.cs:61-64 | The clamped per-axis gap is non-negative and at least the offset beyond the cube's face. It is zero exactly when the viewer is within half a cube of the centre on that axis. |
| ChunkStreaming.InViewGaps | Assets/Scripts/Generators/Mesh/ContinuesMeshGenerator.cs:64-66 | A chunk in range has every per-axis gap at most viewDistance. |
| ChunkStreaming.ZeroInView | Assets/Scripts/Generators/Mesh/ContinuesMeshGenerator.cs:66 | A chunk at squared distance zero passes the range test, and so is never evicted. |
| ChunkStreaming.HoldingChunkAtZero | Assets/Scripts/Generators/Mesh/ContinuesMeshGenerator.cs:62-64 | A chunk whose cube holds the viewer is at squared distance zero, because every gap is clamped at 0. |
| ChunkStreaming.ViewerInsideCell | Assets/Scripts/Generators/Mesh/ContinuesMeshGenerator.cs:49-51 | The viewer lies inside the cube of its rounded viewer coordinates. |
| ChunkStreaming.ViewerChunkAtZero | Assets/Scripts/Generators/Mesh/ContinuesMeshGenerator.cs:49-64 | The chunk at the viewer's own coordinates is at squared distance zero. |
| ChunkStreaming.InRangeNearCell | Assets/Scripts/Generators/Mesh/ContinuesMeshGenerator.cs:73-77 | When the viewer is strictly inside a half cell around v and viewDistance/boundsSize ≤ m, an in-range coordinate lies within m of v on every axis. |
| ChunkStreaming.CubeAroundCellCovers | Assets/Scripts/Generators/Mesh/ContinuesMeshGenerator.cs:73-77 | Off a rounding boundary, every in-range coordinate is among the candidates of any radius m ≥ viewDistance/boundsSize. |
| ChunkStreaming.CandidateCubeCovers | Assets/Scripts/Generators/Mesh/ContinuesMeshGenerator.cs:49-77 | With the code's own viewer coordinates and radius ceil(viewDistance/boundsSize), every in-range coordinate is a candidate whenever the viewer is off a half-cell boundary. |
| ChunkStreaming.CandidateCubeMissesBoundaryChunk | Assets/Scripts/Generators/Mesh/ContinuesMeshGenerator.cs:49-77 | The boundary case is real. A viewer at (0.5, 0, 0) with boundsSize 1 and viewDistance 1 rounds to cell 0 with radius 1, so chunk (2, 0, 0) is in range but never a candidate. |
| ChunkStreaming.Candidates | Assets/Scripts/Generators/Mesh/ContinuesMeshGenerator.cs:73-77 | Lists the coordinates the three candidate loops visit, in loop order; there are (2m+1)³ of them. |
| ChunkStreaming.CandidatesExactly | Assets/Scripts/Generators/Mesh/ContinuesMeshGenerator.cs:73-77 | The candidates are exactly viewerCoordinates + (x, y, z) with every component in [−m, m]. |
| ChunkStreaming.CandidateAt | Assets/Scripts/Generators/Mesh/ContinuesMeshGenerator.cs:73-77 | Iteration (x, y, z) of the candidate loops visits viewerCoordinates + (x, y, z), at its x-outer, z-inner step. |
| ChunkStreaming.CandidateStep | Assets/Scripts/Generators/Mesh/ContinuesMeshGenerator.cs:73-77 | The same step, written as the linear counter the loops advance. |
| ChunkStreaming.CandidatesCount | Assets/Scripts/Generators/Mesh/ContinuesMeshGenerator.cs:73-75 | The loops visit (2m+1)³ candidates, or none when m < 0. |
| ChunkStreaming.CandidatesDistinct | Assets/Scripts/Generators/Mesh/ContinuesMeshGenerator.cs:73-77 | No candidate is visited twice. |
| ChunkStreaming.VisitedPrefix | Assets/Scripts/Generators/Mesh/ContinuesMeshGenerator.cs:73-77 | The first k iterations visit exactly the first k candidates. |
| ChunkStreaming.VisitNext | Assets/Scripts/Generators/Mesh/ContinuesMeshGenerator.cs:73-77 | Iteration (x, y, z) appends one candidate that was not visited before. |
| ChunkStreaming.Accepted | Assets/Scripts/Generators/Mesh/ContinuesMeshGenerator.cs:77-92 | Lists the candidates the acceptance pass places, in loop order. |
| ChunkStreaming.AcceptedExactly | Assets/Scripts/Generators/Mesh/ContinuesMeshGenerator.cs:79-92 | A coordinate is accepted exactly when it is a candidate that is not yet a key, is in range and is visible. |
| ChunkStreaming.AcceptedDistinct | Assets/Scripts/Generators/Mesh/ContinuesMeshGenerator.cs:79-92 | No coordinate is accepted twice, so the keys added stay unique. |
| ChunkStreaming.RepeatedAcceptanceIdle | Assets/Scripts/Generators/Mesh/ContinuesMeshGenerator.cs:79 | Once the accepted coordinates are keys, a second scan with the same range and visibility accepts nothing. |
| ChunkStreaming.Survivors | Assets/Scripts/Generators/Mesh/ContinuesMeshGenerator.cs:57-71 | Lists the chunks the eviction pass keeps, in list order. |
| ChunkStreaming.Evicted | Assets/Scripts/Generators/Mesh/ContinuesMeshGenerator.cs:57-71 | Lists the chunks the eviction pass enqueues, in enqueue order (from the end of the list). |
| ChunkStreaming.EvictionExactly | Assets/Scripts/Generators/Mesh/ContinuesMeshGenerator.cs:66 | A chunk survives exactly when its squared distance is at most viewDistance². It is evicted exactly when the distance is strictly greater. |
| ChunkStreaming.EvictionPartition | Assets/Scripts/Generators/Mesh/ContinuesMeshGenerator.cs:57-71 | Survivors and evicted chunks together are the old list as a multiset: nothing is lost or duplicated. |
| ChunkStreaming.AllInViewSurvive | Assets/Scripts/Generators/Mesh/ContinuesMeshGenerator.cs:57-71 | When every chunk is in range, eviction keeps the list as it is and pools nothing. |
| ChunkRegistry.PlacementStart | Assets/Scripts/Generators/Mesh/ContinuesMeshGenerator.cs:73-77 | Before the first candidate, nothing is placed, and the list, dictionary and pool left by eviction form a registry. |
| ChunkRegistry.PoolFrontStep | Assets/Scripts/Generators/Mesh/ContinuesMeshGenerator.cs:94-96 | Placing takes the pool's front chunk while the pool lasts, so the chunks placed so far are a prefix of the pool. |
| ChunkRegistry.MeshedSnoc | Assets/Scripts/Generators/Mesh/ContinuesMeshGenerator.cs:97-100 | Appending a chunk that carries the accepted coordinate and its mesh extends the meshed placement. |
| ChunkRegistry.PoolUntaken | Assets/Scripts/Generators/Mesh/ContinuesMeshGenerator.cs:94-96 | The chunks left in the pool come from the pool the pass started with, and none of them was placed. |
| ChunkRegistry.RegistryExtend | Assets/Scripts/Generators/Mesh/ContinuesMeshGenerator.cs:98-99 | Adding an unlisted chunk under a new key keeps the dictionary an exact registry of the list. |
| ChunkRegistry.PoolFrontUnlisted | Assets/Scripts/Generators/Mesh/ContinuesMeshGenerator.cs:96-99 | The pool's front chunk is not listed, and moving it from pool to list keeps every chunk unique. |
| ChunkRegistry.ListingStep | Assets/Scripts/Generators/Mesh/ContinuesMeshGenerator.cs:94-110 | Either branch adds the coordinate as a key, lists its chunk once, and consumes the pool front if any. |
| ChunkRegistry.PlacementExtend | Assets/Scripts/Generators/Mesh/ContinuesMeshGenerator.cs:94-110 | One more accepted coordinate keeps the whole placement invariant (list, keys, pool prefix, meshes). |
| ContinuesGenerator.RegistryCoordsDistinct | Assets/Scripts/Generators/Mesh/ContinuesMeshGenerator.cs:68 | In a registry, distinct listed chunks carry distinct coordinates, so removing one chunk's key touches no other chunk. |
| ContinuesGenerator.KeptEntriesStep | Assets/Scripts/Generators/Mesh/ContinuesMeshGenerator.cs:66-68 | Looking at one more chunk removes its key exactly when it is out of range. |
| ContinuesGenerator.ContinuesMeshGenerator.constructor | Assets/Scripts/Generators/Mesh/ContinuesMeshGenerator.cs:8-10 | A new streaming generator has no structures yet (the list is null) and an empty registry. |
| ContinuesGenerator.ContinuesMeshGenerator.InitiateVariableChunkStructures | Assets/Scripts/Generators/Mesh/ContinuesMeshGenerator.cs:31-36 | Creates an empty list, dictionary and pool. |
| ContinuesGenerator.ContinuesMeshGenerator.EvictFrom | Assets/Scripts/Generators/Mesh/ContinuesMeshGenerator.cs:57-71 | The backward loop leaves the survivors in their order, appends the evicted chunks to the pool from the end of the list, and keeps exactly the in-range keys. |
| ContinuesGenerator.ContinuesMeshGenerator.EvictOutOfView | Assets/Scripts/Generators/Mesh/ContinuesMeshGenerator.cs:57-71 | Eviction on the generator's own state: the list becomes the survivors, the pool gains the evicted chunks, the dictionary keeps the in-range keys, and the registry invariant holds. Every listed chunk in range stays listed, and only listed or pooled chunks end in the pool. |
| ContinuesGenerator.ContinuesMeshGenerator.EvictionKeepsValid | Assets/Scripts/Generators/Mesh/ContinuesMeshGenerator.cs:57-71 | The state eviction leaves is again a valid registry. |
| ContinuesGenerator.EvictionKeepsRegistry | Assets/Scripts/Generators/Mesh/ContinuesMeshGenerator.cs:68-70 | After eviction, list and pool together still hold every chunk once, and the dictionary is an exact registry of the survivors. |
| ContinuesGenerator.EvictionKeepsDistinct | Assets/Scripts/Generators/Mesh/ContinuesMeshGenerator.cs:69-70 | Moving chunks from list to pool keeps every chunk unique across both. |
| ContinuesGenerator.EvictionKeepsEntries | Assets/Scripts/Generators/Mesh/ContinuesMeshGenerator.cs:68 | The in-range keys are an exact registry of the survivors. |
| ContinuesGenerator.EvictionMembers | Assets/Scripts/Generators/Mesh/ContinuesMeshGenerator.cs:57-71 | Eviction keeps every listed chunk within range, and every chunk in the pool afterwards was pooled or listed before. |
| ContinuesGenerator.PoolOrigins | Assets/Scripts/Generators/Mesh/ContinuesMeshGenerator.cs:69 | Every chunk in the pool after eviction was pooled before or listed before. |
| ContinuesGenerator.EvictionListStep | Assets/Scripts/Generators/Mesh/ContinuesMeshGenerator.cs:70 | At index i, RemoveAt(i) on an out-of-range chunk (and skipping an in-range one) advances the list invariant by one step. |
| ContinuesGenerator.EvictionPoolStep | Assets/Scripts/Generators/Mesh/ContinuesMeshGenerator.cs:69 | Enqueueing the chunk at index i when out of range advances the pool invariant by one step. |
| ContinuesGenerator.EvictionDictStep | Assets/Scripts/Generators/Mesh/ContinuesMeshGenerator.cs:68 | Removing the key of the chunk at index i when out of range advances the dictionary invariant by one step. |
| ContinuesGenerator.AcceptedSnoc | Assets/Scripts/Generators/Mesh/ContinuesMeshGenerator.cs:77-92 | One more candidate adds itself to the accepted coordinates exactly when it is admitted. |
| ContinuesGenerator.AcceptedStep | Assets/Scripts/Generators/Mesh/ContinuesMeshGenerator.cs:77-92 | The same step on a prefix of distinct candidates, which was not accepted before. |
| ContinuesGenerator.ContinuesMeshGenerator.TakeChunk | Assets/Scripts/Generators/Mesh/ContinuesMeshGenerator.cs:94-110 | With a non-empty pool the chunk is the pool's front and the rest stays queued; otherwise it is a fresh chunk. Either way it carries the coordinate and that coordinate's mesh. |
| ContinuesGenerator.ContinuesMeshGenerator.PlaceChunk | Assets/Scripts/Generators/Mesh/ContinuesMeshGenerator.cs:94-110 | The accepted coordinate is registered and listed with its meshed chunk, and the placement invariant extends by it. Only the pool's front chunk (or a fresh one) is written. |
| ContinuesGenerator.ContinuesMeshGenerator.VisitCandidate | Assets/Scripts/Generators/Mesh/ContinuesMeshGenerator.cs:77-110 | One iteration places a chunk exactly when the candidate is new, in range and visible, and keeps the placement invariant. Chunks already placed stay placed, and no pool chunk outside the placed ones is written. |
| ContinuesGenerator.ContinuesMeshGenerator.AcceptRow | Assets/Scripts/Generators/Mesh/ContinuesMeshGenerator.cs:75-111 | The z loop advances the scanned prefix by 2m+1 candidates and keeps the placement invariant. It writes no pool chunk that it does not place. |
| ContinuesGenerator.ContinuesMeshGenerator.AcceptPlane | Assets/Scripts/Generators/Mesh/ContinuesMeshGenerator.cs:74-111 | The y loop advances the scanned prefix by (2m+1)² candidates and keeps the placement invariant. It writes no pool chunk that it does not place. |
| ContinuesGenerator.ContinuesMeshGenerator.AcceptInto | Assets/Scripts/Generators/Mesh/ContinuesMeshGenerator.cs:73-111 | The triple loop places exactly the accepted candidates, in loop order, each from the pool front or fresh. The chunks listed before it and the chunks left in the pool keep their coordinate and mesh. |
| ContinuesGenerator.ContinuesMeshGenerator.AcceptVisibleChunks | Assets/Scripts/Generators/Mesh/ContinuesMeshGenerator.cs:73-111 | Acceptance on the generator's state. The list gains one meshed chunk per accepted coordinate, the dictionary gains exactly those keys, the pool is consumed from its front, and every listed chunk is in range. Chunks listed before, and chunks still pooled, keep their coordinate and mesh. |
| ContinuesGenerator.ListedInRange | Assets/Scripts/Generators/Mesh/ContinuesMeshGenerator.cs:88-92 | When the starting keys and all admitted coordinates are in range, every listed chunk is in range. |
| ContinuesGenerator.ContinuesMeshGenerator.InitiateVisibleChunks | Assets/Scripts/Generators/Mesh/ContinuesMeshGenerator.cs:44-112 | Without structures nothing happens: the list, the map and the pool stay empty, and the two GPU buffers keep their state. Otherwise the result is eviction followed by acceptance around the rounded viewer cell with radius ceil(viewDistance/boundsSize): the surviving chunks in order, then one meshed chunk per new, in-range, visible candidate taken from the pool front or created. The registry invariant holds, and every listed chunk is in range. Surviving chunks and chunks still pooled keep their coordinate and mesh. |
| ContinuesGenerator.ContinuesMeshGenerator.Run | Assets/Scripts/Generators/Mesh/ContinuesMeshGenerator.cs:38-42 | After CreateBuffers and the pass, the buffers are ready, the registry is valid, and every listed chunk is in range. Surviving chunks and chunks still pooled keep their coordinate and mesh. |
| EditorGenerator.RemoveAt | Assets/Scripts/Generators/Mesh/EditorMeshGenerator.cs:86 | List.RemoveAt(i) drops element i and shifts the rest down, keeping their order. |
| EditorGenerator.FirstMatch | Assets/Scripts/Generators/Mesh/EditorMeshGenerator.cs:82-89 | The search stops at the first chunk carrying the coordinate; no earlier chunk carries it, and it returns the length when none does. |
| EditorGenerator.FirstMatchRemoveOther | Assets/Scripts/Generators/Mesh/EditorMeshGenerator.cs:82-89 | Removing a chunk at another coordinate does not change which chunk the search finds. |
| EditorGenerator.Plan | Assets/Scripts/Generators/Mesh/EditorMeshGenerator.cs:72-101 | The reconciliation decides one source per coordinate, and everything it leaves unclaimed is a scene chunk. |
| EditorGenerator.ReusedMembers | Assets/Scripts/Generators/Mesh/EditorMeshGenerator.cs:85 | A chunk was reused exactly when some coordinate took it. |
| EditorGenerator.PlanPartition | Assets/Scripts/Generators/Mesh/EditorMeshGenerator.cs:86 | Reused and retired chunks together are the scene's chunks as a multiset: no chunk is both kept and retired, and none is lost. |
| EditorGenerator.PlanPrefix | Assets/Scripts/Generators/Mesh/EditorMeshGenerator.cs:72-99 | The decisions for the first p coordinates do not depend on the coordinates after them. |
| EditorGenerator.UnclaimedKeepsFirstMatch | Assets/Scripts/Generators/Mesh/EditorMeshGenerator.cs:82-89 | Claims for other coordinates leave a coordinate's first scene match as its first remaining match. |
| EditorGenerator.PlanSourceAt | Assets/Scripts/Generators/Mesh/EditorMeshGenerator.cs:82-96 | Coordinate k reuses the first scene chunk that carries it, and is created only when none does. |
| EditorGenerator.PlanRetired | Assets/Scripts/Generators/Mesh/EditorMeshGenerator.cs:104-107 | A scene chunk is retired exactly when no block coordinate claims it: its coordinate is outside the block, or an earlier scene chunk carries the same coordinate. |
| EditorGenerator.CreatedUnmatched | Assets/Scripts/Generators/Mesh/EditorMeshGenerator.cs:82-96 | A coordinate that gets a new chunk found no match among the chunks left unclaimed, so no chunk unclaimed at the end carries it. |
| EditorGenerator.UnclaimedUnlisted | Assets/Scripts/Generators/Mesh/EditorMeshGenerator.cs:82-107 | Over a scene without repeats, no chunk the reconciliation leaves unclaimed (and so destroyed or disabled) is in a list that realises it. |
| EditorGenerator.RowStep | Assets/Scripts/Generators/Mesh/EditorMeshGenerator.cs:76-78 | Iteration z of row (x, y) visits coordinate (x, y, z). |
| EditorGenerator.ProgressStart | Assets/Scripts/Generators/Mesh/EditorMeshGenerator.cs:68-69 | The empty list and the scene's chunks as the old list are a consistent start. |
| EditorGenerator.ReconcileClaim | Assets/Scripts/Generators/Mesh/EditorMeshGenerator.cs:82-89 | Moving the first match from the old list to the list follows the reconciliation. |
| EditorGenerator.ReconcileCreate | Assets/Scripts/Generators/Mesh/EditorMeshGenerator.cs:92-96 | Listing a new chunk when nothing matches follows the reconciliation. |
| EditorGenerator.ProgressClaim | Assets/Scripts/Generators/Mesh/EditorMeshGenerator.cs:82-89 | As ReconcileClaim, with every listed chunk a scene chunk or a created one. |
| EditorGenerator.ProgressCreate | Assets/Scripts/Generators/Mesh/EditorMeshGenerator.cs:92-96 | As ReconcileCreate, recording the chunk as created. |
| EditorGenerator.ClaimOrCreate | Assets/Scripts/Generators/Mesh/EditorMeshGenerator.cs:78-96 | The search loop and the create branch list the first remaining match or a fresh chunk, as the reconciliation prescribes. |
| EditorGenerator.InitRow | Assets/Scripts/Generators/Mesh/EditorMeshGenerator.cs:76-99 | The z loop reconciles the nz coordinates of one row. |
| EditorGenerator.InitPlane | Assets/Scripts/Generators/Mesh/EditorMeshGenerator.cs:74-100 | The y loop reconciles one plane of coordinates. |
| EditorGenerator.ReconciledBlock | Assets/Scripts/Generators/Mesh/EditorMeshGenerator.cs:72-108 | After the loops, the list realises the reconciliation of the whole block and the old list is exactly the unclaimed chunks. A scene without repeats gives a list without repeats. |
| EditorGenerator.InitBlock | Assets/Scripts/Generators/Mesh/EditorMeshGenerator.cs:68-101 | The x loop builds the list and the old list prescribed by the reconciliation of the block. Each listed chunk is a scene chunk or newly created. |
| EditorGenerator.EditorMeshGenerator.constructor | Assets/Scripts/Generators/Mesh/EditorMeshGenerator.cs:11-18 | Both auto-update flags start set, and no settings change is pending. |
| EditorGenerator.EditorMeshGenerator.InitChunks | Assets/Scripts/Generators/Mesh/EditorMeshGenerator.cs:65-108 | The chunk list has one chunk per block coordinate, in loop order, each carrying its coordinate. Each is the first scene chunk carrying it or a new chunk. The retired chunks are exactly the unclaimed scene chunks, and the flags are unchanged. |
| EditorGenerator.EditorMeshGenerator.UpdateAllChunks | Assets/Scripts/Generators/Mesh/EditorMeshGenerator.cs:46-55 | Every listed chunk gets the mesh for its batch centre, and coordinates and buffers stay as they were. |
| EditorGenerator.EditorMeshGenerator.Run | Assets/Scripts/Generators/Mesh/EditorMeshGenerator.cs:27-35 | After CreateBuffers, InitChunks, the mesh builds and ReleaseBuffers, the chunks realise the reconciliation with their batch meshes, and the unclaimed chunks are returned for retirement. When the scene holds no chunk twice, every retired chunk keeps its coordinate and mesh. All three buffers end released, and the settings are untouched. |
| EditorGenerator.EditorMeshGenerator.RequestMeshUpdate | Assets/Scripts/Generators/Mesh/EditorMeshGenerator.cs:38-44 | Runs exactly when (playing and autoUpdateInGame) or (not playing and autoUpdateInEditor); otherwise nothing changes: not the generator, the scene chunks or the buffers, and nothing is retired. Retired chunks of a scene without repeats keep their coordinate and mesh. |
| EditorGenerator.EditorMeshGenerator.Update | Assets/Scripts/Generators/Mesh/EditorMeshGenerator.cs:20-25 | Acts only when a settings change is pending, then clears the flag; without one, nothing changes: not the list, the generator, the scene chunks or the buffers, and nothing is retired. Retired chunks of a scene without repeats keep their coordinate and mesh. |
| EditorGenerator.EditorMeshGenerator.OnValidate | Assets/Scripts/Generators/Mesh/EditorMeshGenerator.cs:110-113 | Marks a settings change as pending and changes nothing else. |

## Left out

- The extraction pipeline (`densityGenerator.Generate`, the compute shader, and the marching-cubes tables) is the parameter `kernel`. The model takes whatever triangles it appends for a chunk's centre.
- Floating point. Positions, distances and `boundsSize` are exact reals. `Mathf.RoundToInt` is exact rounding with halves to even, and `Mathf.CeilToInt` is the exact ceiling.
- The camera-frustum test (`IsVisibleFrom`, `GeometryUtility`) is the parameter `visible`.
- The triangle-buffer capacity is never checked by the code. The model requires the kernel to emit at most 5·(n−1)³ triangles for any centre (`KernelFits`). `MeshGeneration.VoxelwiseKernelFits` derives this from a per-voxel kernel (`MarchesVoxels`) whose voxels emit at most five triangles each. That per-voxel bound comes from the marching-cubes tables, which are not part of this model.
- `boundsSize` is taken to be positive. The inspector does not enforce this; with 0 the float divisions produce infinities, which the model does not represent.
- The model allows a released buffer to be used again. Two play-mode Runs of the batch generator do this: the first ends in ReleaseBuffers (EditorMeshGenerator.cs:27-35), and the second CreateBuffers keeps the released buffers because the points count still matches (AbstractMeshGenerator.cs:96). The model takes no stance on what Unity does with them.
- Unity scene plumbing:
  - GameObject creation and naming, `CreateChunkHolder`, `Chunk.SetUp` and `RecalculateNormals` are not modelled.
  - `DestroyOrDisable` is not modelled; InitChunks returns the retired chunks instead.
  - `FindObjectsOfType` is the parameter `scene`.
  - `OnDrawGizmos` is not modelled.
- Awake and OnDestroy of the streaming generator are not modelled. They are InitiateVariableChunkStructures guarded by `Application.isPlaying`, the destruction of the scene's chunks, and ReleaseBuffers; the first and last are modelled as methods.
- Chunk.cs is not part of this model. A chunk's mesh is held as two sequence fields of the Chunk class, and the mesh's Clear is the overwrite of both.
- NoiseDensityGenerator, the colour generators and the camera script are not part of this model.
- The abstract class and its two subclasses are modelled by composition. Each generator holds a `MeshGenerator`, whose `layout` constant selects the CentreFromCoord override.
- The candidate cube does not always cover every in-range coordinate. `CandidateCubeCovers` is stated for a viewer off a half-cell rounding boundary, and `CandidateCubeMissesBoundaryChunk` exhibits a chunk that an on-boundary viewer never creates. The model keeps the code's radius.
- The model makes no claim that pooled chunks carry coordinates distinct from the active ones. A pooled chunk keeps its stale coordinate, and the code does not maintain such a property.
- ContinuesGenerator.ContinuesMeshGenerator.Run: states validity, ready buffers and "every listed chunk in range". It does not restate InitiateVisibleChunks's exact placement, which InitiateVisibleChunks carries itself.
- The nested loops of InitChunks and of the acceptance pass are split into one method per loop level (InitBlock/InitPlane/InitRow, AcceptInto/AcceptPlane/AcceptRow), each with its own invariant.
- Freshness of a created chunk is stated as "a chunk of the scene or pool, or freshly allocated". Which allocation produced it is not tracked.
