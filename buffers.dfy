/** The three GPU working buffers: their capacities, derived from
    numPointsPerAxis alone, the append counter of the triangle buffer, the
    counter copy that the CPU reads back, and the thread-group arithmetic of
    the extraction dispatch. */
module Buffers {
  import opened Lattice
  import opened Geometry

  /** Threads per group along each axis of the extraction kernel. */
  const ThreadGroupSize: int := 8

  /** Marching cubes emits at most this many triangles for one voxel. */
  const MaxTrianglesPerVoxel: int := 5

  /** One float4 sample of the density field: a position and its density. */
  datatype Sample = Sample(position: Vec3, density: real)

  /** A ComputeBuffer: a fixed number of elements, a hidden append counter
      (used by buffers of type Append) and whether it has been released. */
  class ComputeBuffer<T> {
    const count: nat
    var data: seq<T>
    var counter: nat
    var released: bool

    ghost predicate Valid()
      reads this
    {
      |data| == count && counter <= count
    }

    constructor (count: nat, blank: T)
      ensures Valid() && this.count == count
      ensures data == seq(count, _ => blank) && counter == 0 && !released
    {
      this.count := count;
      data := seq(count, _ => blank);
      counter := 0;
      released := false;
    }

    method Release()
      modifies this
      ensures released
      ensures data == old(data) && counter == old(counter)
    {
      released := true;
    }

    method SetCounterValue(v: nat)
      requires Valid() && v <= count
      modifies this
      ensures Valid() && counter == v
      ensures data == old(data) && released == old(released)
    {
      counter := v;
    }

    /** Appends items at the counter, as a kernel writing to an append buffer does. */
    method Append(items: seq<T>)
      requires Valid() && counter + |items| <= count
      modifies this
      ensures Valid() && counter == old(counter) + |items|
      ensures data == old(data)[..old(counter)] + items + old(data)[old(counter) + |items|..]
      ensures released == old(released)
    {
      data := data[..counter] + items + data[counter + |items|..];
      counter := counter + |items|;
    }

    /** GetData(dst, 0, start, n): n consecutive elements starting at start. */
    function GetData(start: nat, n: nat): (r: seq<T>)
      reads this
      requires Valid() && start + n <= count
      ensures |r| == n
      ensures forall i :: 0 <= i < n ==> r[i] == data[start + i]
    {
      data[start..start + n]
    }
  }

  /** ComputeBuffer.CopyCount: writes the append counter of src into dst at dstOffset. */
  method CopyCount<T>(src: ComputeBuffer<T>, dst: ComputeBuffer<int>, dstOffset: nat)
    requires src.Valid() && dst.Valid() && dstOffset < dst.count
    modifies dst
    ensures dst.Valid()
    ensures dst.data == old(dst.data)[dstOffset := old(src.counter)]
    ensures dst.counter == old(dst.counter) && dst.released == old(dst.released)
  {
    dst.data := dst.data[dstOffset := src.counter];
  }

  /** shader.Dispatch of the extraction kernel over a cube of thread groups. The
      kernel's output for the chunk is `emitted`; the grid must reach every voxel. */
  method Dispatch(triangles: ComputeBuffer<Triangle>, emitted: seq<Triangle>,
                  threadGroups: int, numVoxelsPerAxis: int)
    requires ThreadGroupSize * threadGroups >= numVoxelsPerAxis
    requires triangles.Valid() && triangles.counter + |emitted| <= triangles.count
    modifies triangles
    ensures triangles.Valid() && triangles.counter == old(triangles.counter) + |emitted|
    ensures triangles.data == old(triangles.data)[..old(triangles.counter)] + emitted
                              + old(triangles.data)[old(triangles.counter) + |emitted|..]
    ensures triangles.released == old(triangles.released)
  {
    triangles.Append(emitted);
  }

  /** Capacity of the points buffer: numPointsPerAxis cubed samples. */
  function PointCount(n: int): int {
    n * n * n
  }

  /** Voxels of a chunk: one fewer than the points along each axis. */
  function VoxelCount(n: int): int {
    (n - 1) * (n - 1) * (n - 1)
  }

  /** Capacity of the triangle buffer: the worst case of five triangles per voxel. */
  function MaxTriangleCount(n: int): int {
    MaxTrianglesPerVoxel * VoxelCount(n)
  }

  /** numThreadsPerAxis = ceil(numVoxelsPerAxis / 8): the fewest groups that reach every voxel. */
  function ThreadGroups(numVoxelsPerAxis: int): (g: int)
    ensures ThreadGroupSize * g >= numVoxelsPerAxis
    ensures ThreadGroupSize * (g - 1) < numVoxelsPerAxis
  {
    CeilToInt(numVoxelsPerAxis as real / ThreadGroupSize as real)
  }

  /** Spacing of the sample grid: numPointsPerAxis points span the chunk edge exactly. */
  function PointSpacing(boundsSize: real, numPointsPerAxis: int): (s: real)
    requires numPointsPerAxis >= 2
    ensures (numPointsPerAxis - 1) as real * s == boundsSize
  {
    boundsSize / (numPointsPerAxis - 1) as real
  }

  lemma CubeStrictMono(a: int, b: int)
    requires 0 <= a < b
    ensures a * a * a < b * b * b
  {
    assert a * a <= a * b < b * b by {
      MulLeftMono(a, b, a);
      MulLeftMono(a, b, b);
    }
    MulLeftMono(a * a, b * b, a);
    assert b * b * a < b * b * b by {
      assert b * b > 0;
      assert b * b * b - b * b * a == b * b * (b - a);
    }
  }

  /** A points buffer's count determines the resolution it was made for, so a
      matching count also means matching triangle and counter buffers. */
  lemma {:induction false} PointCountDeterminesResolution(n: int, m: int)
    requires n >= 0 && m >= 0 && PointCount(n) == PointCount(m)
    ensures n == m && MaxTriangleCount(n) == MaxTriangleCount(m)
  {
    if n < m {
      CubeStrictMono(n, m);
    } else if m < n {
      CubeStrictMono(m, n);
    }
  }

  /** All the triangles of a dispatch, voxel by voxel. */
  function Concat(cells: seq<seq<Triangle>>): (r: seq<Triangle>)
  {
    if cells == [] then [] else cells[0] + Concat(cells[1..])
  }

  lemma {:induction false} ConcatBound(cells: seq<seq<Triangle>>, bound: nat)
    requires forall i :: 0 <= i < |cells| ==> |cells[i]| <= bound
    ensures |Concat(cells)| <= bound * |cells|
  {
    if cells != [] {
      ConcatBound(cells[1..], bound);
    }
  }

  /** If each voxel emits at most five triangles, a chunk's triangles fit the
      triangle buffer: the count read back never exceeds its capacity. */
  lemma CellTrianglesFitCapacity(cells: seq<seq<Triangle>>, n: int)
    requires |cells| == VoxelCount(n)
    requires forall i :: 0 <= i < |cells| ==> |cells[i]| <= MaxTrianglesPerVoxel
    ensures |Concat(cells)| <= MaxTriangleCount(n)
  {
    ConcatBound(cells, MaxTrianglesPerVoxel);
  }
}
