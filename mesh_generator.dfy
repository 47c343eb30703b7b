/** The state and operations that both generators share: the chunk entity,
    the GPU working buffers and their (re)allocation, and the per-chunk mesh
    build that runs density generation, extraction and readback and writes the
    result into the chunk's mesh. */
module MeshGeneration {
  import opened Lattice
  import opened Geometry
  import opened Buffers

  /** A chunk: its lattice coordinate and its mesh (vertex and index arrays). */
  class Chunk {
    var coord: Coord
    var vertices: seq<Vec3>
    var triangles: seq<int>

    constructor (coord: Coord)
      ensures this.coord == coord && vertices == [] && triangles == []
    {
      this.coord := coord;
      vertices := [];
      triangles := [];
    }
  }

  /** Which concrete generator supplies CentreFromCoord. */
  datatype Layout = Streaming | Batch

  /** The extraction pipeline never emits more triangles than the triangle
      buffer holds. */
  ghost predicate KernelFits(kernel: Vec3 -> seq<Triangle>, numPointsPerAxis: int) {
    forall centre :: |kernel(centre)| <= MaxTriangleCount(numPointsPerAxis)
  }

  /** The extraction dispatch runs one thread per voxel; thread i appends the
      triangles `cell(centre, i)` of voxel i to the triangle buffer. The order in
      which the threads append is not fixed, so the kernel's output is their
      concatenation up to order. */
  ghost predicate MarchesVoxels(kernel: Vec3 -> seq<Triangle>, cell: (Vec3, int) -> seq<Triangle>, numPointsPerAxis: int) {
    && numPointsPerAxis >= 1
    && forall centre ::
         multiset(kernel(centre)) == multiset(Concat(seq(VoxelCount(numPointsPerAxis), i => cell(centre, i))))
  }

  /** A kernel made of voxels that emit at most five triangles each fits the
      triangle buffer. */
  lemma VoxelwiseKernelFits(kernel: Vec3 -> seq<Triangle>, cell: (Vec3, int) -> seq<Triangle>, numPointsPerAxis: int)
    requires MarchesVoxels(kernel, cell, numPointsPerAxis)
    requires forall centre, i | 0 <= i < VoxelCount(numPointsPerAxis) :: |cell(centre, i)| <= MaxTrianglesPerVoxel
    ensures KernelFits(kernel, numPointsPerAxis)
  {
    forall centre
      ensures |kernel(centre)| <= MaxTriangleCount(numPointsPerAxis)
    {
      var cells := seq(VoxelCount(numPointsPerAxis), i => cell(centre, i));
      CellTrianglesFitCapacity(cells, numPointsPerAxis);
      assert |kernel(centre)| == |multiset(kernel(centre))| == |multiset(Concat(cells))| == |Concat(cells)|;
    }
  }

  /** The flatten loop of UpdateChunkMesh: vertex 3i+j is corner j of triangle i
      and the index array is the identity, so no vertex is shared. */
  method FlattenTriangles(triangles: seq<Triangle>) returns (vertices: array<Vec3>, meshTriangles: array<int>)
    ensures fresh(vertices) && fresh(meshTriangles)
    ensures vertices.Length == 3 * |triangles| == meshTriangles.Length
    ensures vertices[..] == Flatten(triangles)
    ensures meshTriangles[..] == seq(3 * |triangles|, k => k)
  {
    var triangleCount := |triangles|;
    vertices := new Vec3[triangleCount * 3];
    meshTriangles := new int[triangleCount * 3];
    var i := 0;
    while i < triangleCount
      invariant 0 <= i <= triangleCount
      invariant forall k :: 0 <= k < 3 * i ==> vertices[k] == Vertex(triangles[k / 3], k % 3)
      invariant forall k :: 0 <= k < 3 * i ==> meshTriangles[k] == k
    {
      var j := 0;
      while j < 3
        invariant 0 <= j <= 3
        invariant forall k :: 0 <= k < 3 * i + j ==> vertices[k] == Vertex(triangles[k / 3], k % 3)
        invariant forall k :: 0 <= k < 3 * i + j ==> meshTriangles[k] == k
      {
        meshTriangles[i * 3 + j] := i * 3 + j;
        vertices[i * 3 + j] := Vertex(triangles[i], j);
        j := j + 1;
      }
      i := i + 1;
    }
    forall k | 0 <= k < 3 * triangleCount
      ensures vertices[k] == Flatten(triangles)[k]
    {
      FlattenAt(triangles, k);
    }
  }

  /** AbstractMeshGenerator: configuration, the three buffers and the shared
      per-chunk mesh build. `layout` stands for the overriding CentreFromCoord. */
  class MeshGenerator {
    const layout: Layout
    var numChunks: Coord
    var boundsSize: real
    var numPointsPerAxis: int
    var pointsBuffer: ComputeBuffer?<Sample>
    var triangleBuffer: ComputeBuffer?<Triangle>
    var triCountBuffer: ComputeBuffer?<int>
    /** The resolution the current buffers were allocated for. */
    ghost var allocatedFor: int

    ghost predicate Valid()
      reads this, pointsBuffer, triangleBuffer, triCountBuffer
    {
      && 2 <= numPointsPerAxis <= 100
      && boundsSize > 0.0
      && (pointsBuffer == null <==> triangleBuffer == null)
      && (pointsBuffer == null <==> triCountBuffer == null)
      && (pointsBuffer != null ==>
            && pointsBuffer.Valid() && triangleBuffer.Valid() && triCountBuffer.Valid()
            && allocatedFor >= 2
            && pointsBuffer.count == PointCount(allocatedFor)
            && triangleBuffer.count == MaxTriangleCount(allocatedFor)
            && triCountBuffer.count == 1)
    }

    /** The buffers exist and are sized for the current numPointsPerAxis. */
    ghost predicate Ready()
      reads this, pointsBuffer, triangleBuffer, triCountBuffer
    {
      Valid() && pointsBuffer != null && allocatedFor == numPointsPerAxis
    }

    lemma ReadyIsValid()
      requires Ready()
      ensures Valid()
    {
    }

    constructor (layout: Layout, numChunks: Coord, boundsSize: real, numPointsPerAxis: int)
      requires 2 <= numPointsPerAxis <= 100 && boundsSize > 0.0
      ensures Valid() && this.layout == layout && this.numChunks == numChunks
      ensures this.boundsSize == boundsSize && this.numPointsPerAxis == numPointsPerAxis
      ensures pointsBuffer == null
    {
      this.layout := layout;
      this.numChunks := numChunks;
      this.boundsSize := boundsSize;
      this.numPointsPerAxis := numPointsPerAxis;
      pointsBuffer, triangleBuffer, triCountBuffer := null, null, null;
    }

    function CentreFromCoord(coord: Coord): Vec3
      reads this
    {
      match layout
      case Streaming => StreamingCentre(coord, boundsSize)
      case Batch => BatchCentre(coord, numChunks, boundsSize)
    }

    /** The buffers of a live run are kept when the points buffer already has n^3 elements. */
    static predicate KeepsBuffers(playing: bool, points: ComputeBuffer?<Sample>, n: int) {
      playing && points != null && points.count == PointCount(n)
    }

    method CreateBuffers(playing: bool)
      requires Valid()
      modifies this, pointsBuffer, triangleBuffer, triCountBuffer
      ensures Ready()
      ensures numPointsPerAxis == old(numPointsPerAxis) && boundsSize == old(boundsSize)
      ensures numChunks == old(numChunks)
      ensures KeepsBuffers(playing, old(pointsBuffer), numPointsPerAxis) ==>
                && pointsBuffer == old(pointsBuffer) && triangleBuffer == old(triangleBuffer)
                && triCountBuffer == old(triCountBuffer)
                && unchanged(pointsBuffer, triangleBuffer, triCountBuffer)
      ensures !KeepsBuffers(playing, old(pointsBuffer), numPointsPerAxis) ==>
                && fresh(pointsBuffer) && fresh(triangleBuffer) && fresh(triCountBuffer)
                && !pointsBuffer.released && !triangleBuffer.released && !triCountBuffer.released
                && triangleBuffer.counter == 0
      ensures !KeepsBuffers(playing, old(pointsBuffer), numPointsPerAxis) && playing && old(pointsBuffer) != null ==>
                old(pointsBuffer).released && old(triangleBuffer).released && old(triCountBuffer).released
      ensures !playing && old(pointsBuffer) != null ==>
                unchanged(old(pointsBuffer), old(triangleBuffer), old(triCountBuffer))
    {
      var numPoints := numPointsPerAxis * numPointsPerAxis * numPointsPerAxis;
      var numVoxelsPerAxis := numPointsPerAxis - 1;
      var numVoxels := numVoxelsPerAxis * numVoxelsPerAxis * numVoxelsPerAxis;
      var maxTriangleCount := numVoxels * 5;

      if playing && pointsBuffer != null && numPoints == pointsBuffer.count {
        PointCountDeterminesResolution(numPointsPerAxis, allocatedFor);
        return;
      }
      if playing {
        ReleaseBuffers();
      }

      MulLeftMono(0, numVoxelsPerAxis, numVoxelsPerAxis);
      MulLeftMono(0, numVoxelsPerAxis * numVoxelsPerAxis, numVoxelsPerAxis);
      triangleBuffer := new ComputeBuffer<Triangle>(maxTriangleCount, Triangle(Vec3(0.0, 0.0, 0.0), Vec3(0.0, 0.0, 0.0), Vec3(0.0, 0.0, 0.0)));
      pointsBuffer := new ComputeBuffer<Sample>(numPoints, Sample(Vec3(0.0, 0.0, 0.0), 0.0));
      triCountBuffer := new ComputeBuffer<int>(1, 0);
      allocatedFor := numPointsPerAxis;
    }

    /** Releases every buffer that exists; absent buffers are skipped. */
    method ReleaseBuffers()
      requires Valid()
      modifies pointsBuffer, triangleBuffer, triCountBuffer
      ensures Valid() && (old(Ready()) ==> Ready())
      ensures pointsBuffer != null ==> pointsBuffer.released && triangleBuffer.released && triCountBuffer.released
      ensures pointsBuffer != null ==>
                && pointsBuffer.data == old(pointsBuffer.data) && triangleBuffer.data == old(triangleBuffer.data)
                && triCountBuffer.data == old(triCountBuffer.data)
                && triangleBuffer.counter == old(triangleBuffer.counter)
    {
      if triangleBuffer != null {
        triangleBuffer.Release();
      }
      if pointsBuffer != null {
        pointsBuffer.Release();
      }
      if triCountBuffer != null {
        triCountBuffer.Release();
      }
    }

    /** CreateChunk: a new chunk at the given coordinate with an empty mesh. */
    method CreateChunk(coordinates: Coord) returns (chunk: Chunk)
      ensures fresh(chunk) && chunk.coord == coordinates
      ensures chunk.vertices == [] && chunk.triangles == []
    {
      chunk := new Chunk(coordinates);
    }

    /** Builds chunk's mesh from what the extraction pipeline emits for the
        chunk's centre (`kernel`; density generation and the marching-cubes
        kernel are not part of this model). */
    method UpdateChunkMesh(chunk: Chunk, kernel: Vec3 -> seq<Triangle>)
      requires Ready() && KernelFits(kernel, numPointsPerAxis)
      modifies chunk, triangleBuffer, triCountBuffer
      ensures Ready()
      ensures chunk.coord == old(chunk.coord)
      ensures chunk.vertices == Flatten(kernel(CentreFromCoord(chunk.coord)))
      ensures chunk.triangles == seq(3 * |kernel(CentreFromCoord(chunk.coord))|, k => k)
      ensures triangleBuffer.counter == |kernel(CentreFromCoord(chunk.coord))|
      ensures triCountBuffer.data[0] == |kernel(CentreFromCoord(chunk.coord))|
      ensures triangleBuffer.released == old(triangleBuffer.released)
      ensures triCountBuffer.released == old(triCountBuffer.released)
    {
      var numVoxelsPerAxis := numPointsPerAxis - 1;
      var numThreadsPerAxis := ThreadGroups(numVoxelsPerAxis);

      var chunkCordinates := chunk.coord;
      var centre := CentreFromCoord(chunkCordinates);

      triangleBuffer.SetCounterValue(0);
      Dispatch(triangleBuffer, kernel(centre), numThreadsPerAxis, numVoxelsPerAxis);

      CopyCount(triangleBuffer, triCountBuffer, 0);
      var triangleCount := triCountBuffer.data[0];
      var triangles := triangleBuffer.GetData(0, triangleCount);
      assert triangles == kernel(centre);

      var vertices, meshTriangles := FlattenTriangles(triangles);
      chunk.vertices := vertices[..];
      chunk.triangles := meshTriangles[..];
    }
  }
}
