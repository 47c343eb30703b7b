/** ContinuesMeshGenerator: the streaming registry. Chunks beyond the view
    distance move from the active list and dictionary into the FIFO reuse
    pool; then every new, in-range, visible coordinate of a cube around the
    viewer gets a chunk, from the pool front while it lasts, else a new one. */
module ChunkStreaming {
  import opened RealArith
  import opened Lattice
  import opened Geometry
  import opened Buffers
  import opened MeshGeneration

  /** What one pass reads: the viewer's position, boundsSize and viewDistance. */
  datatype View = View(position: Vec3, boundsSize: real, viewDistance: real)

  function Abs(r: real): real {
    if r < 0.0 then -r else r
  }

  /** How far the viewer lies outside the chunk's cube along one axis: the
      offset from the centre less half the cube, clamped at zero. */
  function AxisGap(p: real, centre: real, boundsSize: real): real {
    var o := Abs(p - centre) - boundsSize / 2.0;
    if o > 0.0 then o else 0.0
  }

  /** The gap is never negative, is at least the offset beyond the cube's face, and
      is zero exactly when the position is within half a cube of the centre. */
  lemma AxisGapMeaning(p: real, centre: real, boundsSize: real)
    ensures var g := AxisGap(p, centre, boundsSize);
            && g >= 0.0 && g >= Abs(p - centre) - boundsSize / 2.0
            && (g == 0.0 <==> Abs(p - centre) <= boundsSize / 2.0)
  {
  }

  /** The clamped per-axis offset from the cube (centre, side boundsSize) to p. */
  function ClampedOffset(p: Vec3, centre: Vec3, boundsSize: real): Vec3 {
    Vec3(AxisGap(p.x, centre.x, boundsSize),
         AxisGap(p.y, centre.y, boundsSize),
         AxisGap(p.z, centre.z, boundsSize))
  }

  /** The clamped per-axis offset from chunk c's cube to the viewer. */
  function Gaps(view: View, c: Coord): Vec3 {
    ClampedOffset(view.position, StreamingCentre(c, view.boundsSize), view.boundsSize)
  }

  function SqrMagnitude(v: Vec3): real {
    v.x * v.x + v.y * v.y + v.z * v.z
  }

  /** sqrDst: squared distance from the viewer to the chunk's cube. */
  function SqrDistance(view: View, c: Coord): real {
    SqrMagnitude(Gaps(view, c))
  }

  /** The range test shared by both passes: sqrDst <= viewDistance^2. */
  predicate InView(view: View, c: Coord) {
    SqrDistance(view, c) <= view.viewDistance * view.viewDistance
  }

  /** viewerCoordinates: the viewer's position over boundsSize, rounded per axis. */
  function ViewerCoordinates(view: View): Coord
    requires view.boundsSize > 0.0
  {
    Coord(RoundToInt(view.position.x / view.boundsSize),
          RoundToInt(view.position.y / view.boundsSize),
          RoundToInt(view.position.z / view.boundsSize))
  }

  /** maxChunksInView = ceil(viewDistance / boundsSize). */
  function MaxChunksInView(view: View): int
    requires view.boundsSize > 0.0
  {
    CeilToInt(view.viewDistance / view.boundsSize)
  }

  /** The cube -m..m on every axis, as a 0-based block of side 2m+1. */
  function Side(m: int): Coord {
    Coord(2 * m + 1, 2 * m + 1, 2 * m + 1)
  }

  function Offset(centre: Coord, m: int, local: Coord): Coord {
    Coord(centre.x + local.x - m, centre.y + local.y - m, centre.z + local.z - m)
  }

  /** The candidate coordinates in the order of the x/y/z loops of the acceptance pass. */
  function Candidates(centre: Coord, m: int): (cs: seq<Coord>)
    ensures |cs| == BlockSize(Side(m))
  {
    seq(BlockSize(Side(m)), k => Offset(centre, m, BlockCoord(Side(m), k)))
  }

  /** The candidates are exactly centre + (x, y, z) with every component in [-m, m]. */
  lemma CandidatesExactly(centre: Coord, m: int, c: Coord)
    ensures c in Candidates(centre, m) <==>
              -m <= c.x - centre.x <= m && -m <= c.y - centre.y <= m && -m <= c.z - centre.z <= m
  {
    var local := Coord(c.x - centre.x + m, c.y - centre.y + m, c.z - centre.z + m);
    if c in Candidates(centre, m) {
      var k :| 0 <= k < |Candidates(centre, m)| && Candidates(centre, m)[k] == c;
      assert Block(Side(m))[k] == local;
      BlockInverse(Side(m), k);
    }
    if -m <= c.x - centre.x <= m && -m <= c.y - centre.y <= m && -m <= c.z - centre.z <= m {
      BlockAt(Side(m), local);
      assert Candidates(centre, m)[BlockIndex(Side(m), local)] == c;
    }
  }

  /** The loops visit centre + (x, y, z) at the step BlockIndex gives. */
  lemma CandidateAt(centre: Coord, m: int, x: int, y: int, z: int)
    requires -m <= x <= m && -m <= y <= m && -m <= z <= m
    ensures var k := BlockIndex(Side(m), Coord(x + m, y + m, z + m));
            0 <= k < |Candidates(centre, m)| && Candidates(centre, m)[k] == Coord(x, y, z).Plus(centre)
  {
    BlockAt(Side(m), Coord(x + m, y + m, z + m));
  }

  /** The same, with the step counted as the loops count it: (x + m) whole planes
      of (2m+1)^2 candidates, then (y + m) rows of 2m+1, then z + m. */
  lemma CandidateStep(centre: Coord, m: int, x: int, y: int, z: int)
    requires -m <= x <= m && -m <= y <= m && -m <= z <= m
    ensures var s := 2 * m + 1;
            var k := (x + m) * (s * s) + (y + m) * s + (z + m);
            0 <= k < |Candidates(centre, m)| && Candidates(centre, m)[k] == Coord(x, y, z).Plus(centre)
  {
    CandidateAt(centre, m, x, y, z);
    MulRows(x + m, y + m, 2 * m + 1);
  }

  /** The loops visit (2m+1)^3 candidates, none when m is negative. */
  lemma CandidatesCount(centre: Coord, m: int)
    ensures var s := 2 * m + 1;
            |Candidates(centre, m)| == if m < 0 then 0 else s * (s * s)
  {
    var s := 2 * m + 1;
    if m >= 0 {
      assert BlockSize(Side(m)) == s * s * s;
    }
  }

  /** The first k candidates, in the order the loops visit them. */
  function Visited(centre: Coord, m: int, k: nat): (cs: seq<Coord>)
    ensures |cs| == k
  {
    if k == 0 then [] else Visited(centre, m, k - 1) + [Offset(centre, m, BlockCoord(Side(m), k - 1))]
  }

  lemma {:induction false} VisitedPrefix(centre: Coord, m: int, k: nat)
    requires k <= |Candidates(centre, m)|
    ensures Visited(centre, m, k) == Candidates(centre, m)[..k]
  {
    if k > 0 {
      VisitedPrefix(centre, m, k - 1);
      assert Candidates(centre, m)[..k] == Candidates(centre, m)[..k - 1] + [Candidates(centre, m)[k - 1]];
    }
  }

  /** Visiting v + (x, y, z) extends the visited candidates by that coordinate,
      which was not visited before. */
  lemma VisitNext(centre: Coord, m: int, x: int, y: int, z: int)
    requires -m <= x <= m && -m <= y <= m && -m <= z <= m
    ensures var s := 2 * m + 1;
            var k := (x + m) * (s * s) + (y + m) * s + (z + m);
            var c := Coord(x, y, z).Plus(centre);
            && 0 <= k < |Candidates(centre, m)|
            && Visited(centre, m, k + 1) == Visited(centre, m, k) + [c]
            && c !in Visited(centre, m, k)
  {
    var s := 2 * m + 1;
    var k := (x + m) * (s * s) + (y + m) * s + (z + m);
    var c := Coord(x, y, z).Plus(centre);
    CandidateStep(centre, m, x, y, z);
    CandidatesDistinct(centre, m);
    VisitedPrefix(centre, m, k);
    forall i | 0 <= i < k
      ensures Candidates(centre, m)[i] != c
    {
      DistinctAt(Candidates(centre, m), i, k);
    }
  }

  /** No coordinate is a candidate twice in one pass. */
  lemma CandidatesDistinct(centre: Coord, m: int)
    ensures Distinct(Candidates(centre, m))
  {
    var cs := Candidates(centre, m);
    forall i, j | 0 <= i < j < |cs|
      ensures cs[i] != cs[j]
    {
      BlockDistinct(Side(m));
      DistinctAt(Block(Side(m)), i, j);
    }
    DistinctByIndex(cs);
  }

  /* The two passes below are stated for any range test `inRange` (and, for
     acceptance, any visibility test), so that the list, dictionary and queue
     bookkeeping is proved once, apart from the geometry. The pass itself uses
     InRange(view). */

  /** The range test as a function value: sqrDst <= viewDistance^2. */
  function InRange(view: View): Coord -> bool {
    c => InView(view, c)
  }

  /** What the acceptance pass asks of a new coordinate: in range and visible. */
  function Admissible(view: View, visible: Coord -> bool): Coord -> bool {
    c => InView(view, c) && visible(c)
  }

  /** A candidate the acceptance pass materialises: not yet present and admissible. */
  predicate Admits(keys: set<Coord>, admissible: Coord -> bool, c: Coord) {
    c !in keys && admissible(c)
  }

  /** The coordinates the acceptance pass accepts, in acceptance order. */
  function Accepted(cands: seq<Coord>, keys: set<Coord>, admissible: Coord -> bool): seq<Coord>
  {
    if cands == [] then []
    else
      var last := cands[|cands| - 1];
      Accepted(cands[..|cands| - 1], keys, admissible)
        + (if Admits(keys, admissible, last) then [last] else [])
  }

  /** A coordinate is accepted exactly when it is a candidate, not already
      present and admissible. */
  lemma {:induction false} AcceptedExactly(cands: seq<Coord>, keys: set<Coord>, admissible: Coord -> bool,
                                           c: Coord)
    ensures c in Accepted(cands, keys, admissible) <==> c in cands && Admits(keys, admissible, c)
  {
    if cands != [] {
      var init := cands[..|cands| - 1];
      AcceptedExactly(init, keys, admissible, c);
      assert cands == init + [cands[|cands| - 1]];
    }
  }

  /** Accepted coordinates are pairwise distinct, so dictionary keys stay unique. */
  lemma {:induction false} AcceptedDistinct(cands: seq<Coord>, keys: set<Coord>, admissible: Coord -> bool)
    requires Distinct(cands)
    ensures Distinct(Accepted(cands, keys, admissible))
  {
    if cands != [] {
      var init := cands[..|cands| - 1];
      var last := cands[|cands| - 1];
      assert cands == init + [last];
      DistinctParts(init, [last]);
      AcceptedDistinct(init, keys, admissible);
      AcceptedExactly(init, keys, admissible, last);
      assert last !in init by {
        forall k | 0 <= k < |init|
          ensures init[k] != last
        {
          DistinctAt(cands, k, |cands| - 1);
        }
      }
      if Admits(keys, admissible, last) {
        DistinctSnoc(Accepted(init, keys, admissible), last);
      } else {
        assert Accepted(init, keys, admissible) + [] == Accepted(init, keys, admissible);
      }
    }
  }

  /** A second acceptance pass over the same candidates, once every accepted
      coordinate is present, accepts nothing. */
  lemma RepeatedAcceptanceIdle(cands: seq<Coord>, keys: set<Coord>, keys': set<Coord>,
                               admissible: Coord -> bool)
    requires keys <= keys'
    requires forall c :: c in Accepted(cands, keys, admissible) ==> c in keys'
    ensures Accepted(cands, keys', admissible) == []
  {
    var again := Accepted(cands, keys', admissible);
    if again != [] {
      var c := again[0];
      AcceptedExactly(cands, keys', admissible, c);
      AcceptedExactly(cands, keys, admissible, c);
      assert false;
    }
  }

  /** The chunks the eviction pass keeps, in list order. */
  function Survivors(s: seq<Chunk>, inRange: Coord -> bool): seq<Chunk>
    reads s
  {
    if s == [] then []
    else (if inRange(s[0].coord) then [s[0]] else []) + Survivors(s[1..], inRange)
  }

  /** The chunks the eviction pass enqueues, in enqueue order (last index first). */
  function Evicted(s: seq<Chunk>, inRange: Coord -> bool): seq<Chunk>
    reads s
  {
    if s == [] then []
    else Evicted(s[1..], inRange) + (if inRange(s[0].coord) then [] else [s[0]])
  }

  /** A chunk survives exactly when it is within range, and is evicted exactly when
      it is not (the eviction test is the strict sqrDst > viewDistance^2). */
  lemma {:induction false} EvictionExactly(s: seq<Chunk>, inRange: Coord -> bool, c: Chunk)
    ensures c in Survivors(s, inRange) <==> c in s && inRange(c.coord)
    ensures c in Evicted(s, inRange) <==> c in s && !inRange(c.coord)
  {
    if s != [] {
      EvictionExactly(s[1..], inRange, c);
      assert s == [s[0]] + s[1..];
    }
  }

  /** No chunk is lost or duplicated: survivors and evicted chunks together are the
      chunks the pass started with. */
  lemma {:induction false} EvictionPartition(s: seq<Chunk>, inRange: Coord -> bool)
    ensures multiset(Survivors(s, inRange)) + multiset(Evicted(s, inRange)) == multiset(s)
  {
    if s != [] {
      EvictionPartition(s[1..], inRange);
      assert s == [s[0]] + s[1..];
    }
  }

  /** When every chunk is within range the eviction pass keeps all and evicts none. */
  lemma {:induction false} AllInViewSurvive(s: seq<Chunk>, inRange: Coord -> bool)
    requires forall c :: c in s ==> inRange(c.coord)
    ensures Survivors(s, inRange) == s && Evicted(s, inRange) == []
  {
    if s != [] {
      assert s[0] in s;
      AllInViewSurvive(s[1..], inRange);
      assert s == [s[0]] + s[1..];
    }
  }

  /** A vector with non-negative components is bounded componentwise by its length. */
  lemma ComponentsBelow(v: Vec3, d: real)
    requires v.x >= 0.0 && v.y >= 0.0 && v.z >= 0.0 && d >= 0.0
    requires SqrMagnitude(v) <= d * d
    ensures v.x <= d && v.y <= d && v.z <= d
  {
    NonNegativeSquare(v.x);
    NonNegativeSquare(v.y);
    NonNegativeSquare(v.z);
    SquareBelow(v.x, d);
    SquareBelow(v.y, d);
    SquareBelow(v.z, d);
  }

  lemma ZeroMagnitude()
    ensures SqrMagnitude(Vec3(0.0, 0.0, 0.0)) == 0.0
  {
  }

  lemma GapsAt(view: View, c: Coord)
    ensures var p, b := view.position, view.boundsSize;
            Gaps(view, c) == Vec3(AxisGap(p.x, c.x as real * b, b), AxisGap(p.y, c.y as real * b, b),
                                  AxisGap(p.z, c.z as real * b, b))
  {
  }

  /** Within range means within view distance along each axis separately. */
  lemma InViewGaps(view: View, c: Coord)
    requires view.viewDistance >= 0.0 && InView(view, c)
    ensures var p, b, vd := view.position, view.boundsSize, view.viewDistance;
            && AxisGap(p.x, c.x as real * b, b) <= vd
            && AxisGap(p.y, c.y as real * b, b) <= vd
            && AxisGap(p.z, c.z as real * b, b) <= vd
  {
    ComponentsBelow(Gaps(view, c), view.viewDistance);
    GapsAt(view, c);
  }

  /** A chunk at distance zero passes the range test, so the eviction pass keeps it. */
  lemma ZeroInView(view: View, c: Coord)
    requires SqrDistance(view, c) == 0.0
    ensures InView(view, c)
  {
    ZeroWithinRange(SqrDistance(view, c), view.viewDistance);
  }

  lemma ZeroWithinRange(sqrDst: real, vd: real)
    requires sqrDst == 0.0
    ensures sqrDst <= vd * vd
  {
    NonNegativeSquare(vd);
  }

  /* One axis at a time, on plain reals: the arithmetic below is kept apart from the
     vectors because the solver handles it far better that way. */

  lemma ZeroGap(p: real, centre: real, b: real)
    requires -(b / 2.0) <= p - centre <= b / 2.0
    ensures AxisGap(p, centre, b) == 0.0
  {
  }

  lemma ZeroGaps(px: real, py: real, pz: real, b: real, cx: int, cy: int, cz: int)
    requires -(b / 2.0) <= px - cx as real * b <= b / 2.0
    requires -(b / 2.0) <= py - cy as real * b <= b / 2.0
    requires -(b / 2.0) <= pz - cz as real * b <= b / 2.0
    ensures AxisGap(px, cx as real * b, b) == 0.0
    ensures AxisGap(py, cy as real * b, b) == 0.0
    ensures AxisGap(pz, cz as real * b, b) == 0.0
  {
    ZeroGap(px, cx as real * b, b);
    ZeroGap(py, cy as real * b, b);
    ZeroGap(pz, cz as real * b, b);
  }

  /** Position p = t * b with t within half a cell of cr lies within half a cube
      of the centre cr * b. */
  lemma AxisInside(d: real, p: real, t: real, cr: real, b: real)
    requires b > 0.0
    requires -0.5 <= d <= 0.5 && d == t - cr
    requires p == t * b
    ensures -(b / 2.0) <= p - cr * b <= b / 2.0
  {
    MulHalf(d, b);
    assert d * b == p - cr * b;
  }

  /** A position whose quotient by boundsSize is within half of v lies in cell v. */
  lemma AxisHolds(p: real, v: int, b: real)
    requires b > 0.0
    requires -0.5 <= p / b - v as real <= 0.5
    ensures -(b / 2.0) <= p - v as real * b <= b / 2.0
  {
    DivMul(p, b);
    AxisInside(p / b - v as real, p, p / b, v as real, b);
  }

  lemma CellRounded(px: real, py: real, pz: real, b: real, vx: int, vy: int, vz: int)
    requires b > 0.0
    requires vx == RoundToInt(px / b) && vy == RoundToInt(py / b) && vz == RoundToInt(pz / b)
    ensures -(b / 2.0) <= px - vx as real * b <= b / 2.0
    ensures -(b / 2.0) <= py - vy as real * b <= b / 2.0
    ensures -(b / 2.0) <= pz - vz as real * b <= b / 2.0
  {
    AxisHolds(px, vx, b);
    AxisHolds(py, vy, b);
    AxisHolds(pz, vz, b);
  }

  /** In units of boundsSize b (position t * b, viewDistance s * b, half h = b / 2):
      a cube whose gap to the viewer is at most s * b lies less than m + 1 cells
      from the viewer's rounded cell vr, when the viewer is strictly inside it. */
  lemma AxisReach(t: real, cr: real, b: real, s: real, vr: real, mr: real, h: real)
    requires b > 0.0 && h == b / 2.0
    requires -(s * b + h) <= t * b - cr * b <= s * b + h
    requires -0.5 < t - vr < 0.5
    requires s <= mr
    ensures -(mr + 1.0) < cr - vr < mr + 1.0
  {
    MulRightMono(s, mr, b);
    assert (t - cr) * b == t * b - cr * b;
    assert (mr + 0.5) * b == mr * b + 0.5 * b;
    assert (-(mr + 0.5)) * b == -(mr * b) - 0.5 * b;
    ScaleCancel(t - cr, mr + 0.5, b);
    ScaleCancel(-(mr + 0.5), t - cr, b);
  }

  lemma GapBounds(p: real, centre: real, h: real, vd: real)
    requires Abs(p - centre) - h <= vd
    ensures -(vd + h) <= p - centre <= vd + h
  {
  }

  lemma Rescale(p: real, vd: real, centre: real, cr: real, b: real, t: real, s: real, h: real)
    requires p == t * b && vd == s * b && centre == cr * b
    requires -(vd + h) <= p - centre <= vd + h
    ensures -(s * b + h) <= t * b - cr * b <= s * b + h
  {
  }

  /** Along one axis: a chunk within view distance lies within m cells of the
      viewer's cell v, when the viewer is strictly inside v and m >= vd / b. */
  lemma AxisCovered(p: real, c: int, b: real, vd: real, v: int, m: int)
    requires b > 0.0
    requires AxisGap(p, c as real * b, b) <= vd
    requires -0.5 < p / b - v as real < 0.5
    requires vd / b <= m as real
    ensures -m <= c - v <= m
  {
    var h := b / 2.0;
    var centre := c as real * b;
    GapBounds(p, centre, h, vd);
    DivMul(p, b);
    DivMul(vd, b);
    Rescale(p, vd, centre, c as real, b, p / b, vd / b, h);
    AxisReach(p / b, c as real, b, vd / b, v as real, m as real, h);
  }

  lemma CellCovered(px: real, py: real, pz: real, b: real, vd: real, cx: int, cy: int, cz: int,
                    vx: int, vy: int, vz: int, m: int)
    requires b > 0.0
    requires -0.5 < px / b - vx as real < 0.5
    requires -0.5 < py / b - vy as real < 0.5
    requires -0.5 < pz / b - vz as real < 0.5
    requires vd / b <= m as real
    requires AxisGap(px, cx as real * b, b) <= vd
    requires AxisGap(py, cy as real * b, b) <= vd
    requires AxisGap(pz, cz as real * b, b) <= vd
    ensures -m <= cx - vx <= m && -m <= cy - vy <= m && -m <= cz - vz <= m
  {
    AxisCovered(px, cx, b, vd, vx, m);
    AxisCovered(py, cy, b, vd, vy, m);
    AxisCovered(pz, cz, b, vd, vz, m);
  }

  /** A chunk whose cube (centre coord * boundsSize, side boundsSize) holds the
      viewer, boundary included, is at distance zero. */
  lemma HoldingChunkAtZero(view: View, c: Coord)
    requires var p, b := view.position, view.boundsSize;
             && -(b / 2.0) <= p.x - c.x as real * b <= b / 2.0
             && -(b / 2.0) <= p.y - c.y as real * b <= b / 2.0
             && -(b / 2.0) <= p.z - c.z as real * b <= b / 2.0
    ensures SqrDistance(view, c) == 0.0
  {
    var p, b := view.position, view.boundsSize;
    assert Gaps(view, c) == Vec3(0.0, 0.0, 0.0) by {
      ZeroGaps(p.x, p.y, p.z, b, c.x, c.y, c.z);
      GapsAt(view, c);
    }
    ZeroMagnitude();
  }

  /** Rounding puts the viewer within half a cube of its cell's centre on every axis.
      (v names viewerCoordinates, as the pass computes it once up front.) */
  lemma ViewerInsideCell(view: View, v: Coord)
    requires view.boundsSize > 0.0 && v == ViewerCoordinates(view)
    ensures var p, b := view.position, view.boundsSize;
            && -(b / 2.0) <= p.x - v.x as real * b <= b / 2.0
            && -(b / 2.0) <= p.y - v.y as real * b <= b / 2.0
            && -(b / 2.0) <= p.z - v.z as real * b <= b / 2.0
  {
    CellRounded(view.position.x, view.position.y, view.position.z, view.boundsSize, v.x, v.y, v.z);
  }

  /** The chunk at viewerCoordinates holds the viewer, so its distance is zero and
      the eviction pass never recycles it. */
  lemma ViewerChunkAtZero(view: View, v: Coord)
    requires view.boundsSize > 0.0 && v == ViewerCoordinates(view)
    ensures SqrDistance(view, v) == 0.0
  {
    ViewerInsideCell(view, v);
    HoldingChunkAtZero(view, v);
  }

  /** The viewer is strictly inside cell v along every axis. */
  predicate OffCellBoundary(view: View, v: Coord)
    requires view.boundsSize > 0.0
  {
    var p, b := view.position, view.boundsSize;
    && -0.5 < p.x / b - v.x as real < 0.5
    && -0.5 < p.y / b - v.y as real < 0.5
    && -0.5 < p.z / b - v.z as real < 0.5
  }

  /** An in-range chunk lies within m cells of a cell v that strictly holds the
      viewer, once m is at least viewDistance / boundsSize. */
  lemma InRangeNearCell(view: View, c: Coord, v: Coord, m: int)
    requires view.boundsSize > 0.0 && view.viewDistance >= 0.0
    requires view.viewDistance / view.boundsSize <= m as real
    requires var p, b, vd := view.position, view.boundsSize, view.viewDistance;
             && -0.5 < p.x / b - v.x as real < 0.5
             && -0.5 < p.y / b - v.y as real < 0.5
             && -0.5 < p.z / b - v.z as real < 0.5
             && AxisGap(p.x, c.x as real * b, b) <= vd
             && AxisGap(p.y, c.y as real * b, b) <= vd
             && AxisGap(p.z, c.z as real * b, b) <= vd
    ensures -m <= c.x - v.x <= m && -m <= c.y - v.y <= m && -m <= c.z - v.z <= m
  {
    var p := view.position;
    CellCovered(p.x, p.y, p.z, view.boundsSize, view.viewDistance, c.x, c.y, c.z, v.x, v.y, v.z, m);
  }

  /** So a cube of that radius around v contains every in-range chunk. */
  lemma CubeAroundCellCovers(view: View, c: Coord, v: Coord, m: int)
    requires view.boundsSize > 0.0 && view.viewDistance >= 0.0
    requires view.viewDistance / view.boundsSize <= m as real
    requires OffCellBoundary(view, v)
    requires InView(view, c)
    ensures c in Candidates(v, m)
  {
    InViewGaps(view, c);
    InRangeNearCell(view, c, v, m);
    CandidatesExactly(v, m, c);
  }

  /** The pass's own cube, around viewerCoordinates v with radius maxChunksInView m,
      reaches every in-range chunk, provided the viewer is not on a half-cell boundary. */
  lemma CandidateCubeCovers(view: View, c: Coord, v: Coord, m: int)
    requires view.boundsSize > 0.0 && view.viewDistance >= 0.0
    requires v == ViewerCoordinates(view) && m == MaxChunksInView(view)
    requires OffCellBoundary(view, v)
    requires InView(view, c)
    ensures c in Candidates(v, m)
  {
    CubeAroundCellCovers(view, c, v, m);
  }

  /** On a half-cell boundary the cube can miss an in-range chunk: a viewer at
      x = 0.5 with boundsSize 1 and viewDistance 1 rounds to cell 0, so m = 1,
      while chunk (2, 0, 0) is at distance exactly 1. */
  lemma CandidateCubeMissesBoundaryChunk()
    ensures var view := View(Vec3(0.5, 0.0, 0.0), 1.0, 1.0);
            && ViewerCoordinates(view) == Coord(0, 0, 0)
            && MaxChunksInView(view) == 1
            && InView(view, Coord(2, 0, 0))
            && Coord(2, 0, 0) !in Candidates(ViewerCoordinates(view), MaxChunksInView(view))
  {
    var view := View(Vec3(0.5, 0.0, 0.0), 1.0, 1.0);
    assert (0.5).Floor == 0;
    assert (0.0).Floor == 0;
    assert (-1.0).Floor == -1;
    CandidatesExactly(Coord(0, 0, 0), 1, Coord(2, 0, 0));
  }
}
