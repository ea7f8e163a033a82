/** Which way a boundary face looks, in coordinates, and what the repair therefore does to it
    (devtools/validation/fluent_repair.py). By the exporter's convention the right-hand normal of a face
    points from its cell `c0` to its cell `c1`; on a boundary one of the two is missing, and the normal
    points away from the cell that is there if that is `c0` and towards it if that is `c1`. */
module Winding {
  import opened Wrappers
  import opened Newell
  import opened Orientation
  import opened Numbering
  import opened MeshRepair

  /** The direction from which `a`, `b` and `c` are seen counter-clockwise. */
  function Facing(a: Vec, b: Vec, c: Vec): Vec {
    Vec((b.y - a.y) * (c.z - a.z) - (b.z - a.z) * (c.y - a.y),
        (b.z - a.z) * (c.x - a.x) - (b.x - a.x) * (c.z - a.z),
        (b.x - a.x) * (c.y - a.y) - (b.y - a.y) * (c.x - a.x))
  }

  /** How far `p` lies from `a` in that direction. */
  function Ahead(n: Vec, a: Vec, p: Vec): real { n.x * (p.x - a.x) + n.y * (p.y - a.y) + n.z * (p.z - a.z) }

  /** On which side of the plane through `a`, `b` and `c` the point lies: positive where the three are seen
      counter-clockwise, negative where they are seen clockwise. It is six times the volume of the four. */
  function Side(a: Vec, b: Vec, c: Vec, p: Vec): real { Ahead(Facing(a, b, c), a, p) }

  lemma Product(p: real, q: real, r: real, s: real)
    ensures (p - q) * (r - s) == p * r - p * s - q * r + q * s
  {
  }

  /** One component of the normal of a triangle. */
  lemma Shadow(p: real, q: real, r: real, s: real, t: real, u: real)
    ensures (p - r) * (q + s) + (r - t) * (s + u) + (t - p) * (u + q) == (r - p) * (u - q) - (s - q) * (t - p)
  {
    Expand(p, r, q, s);
    Expand(r, t, s, u);
    Expand(t, p, u, q);
    Product(r, p, u, q);
    Product(s, q, t, p);
  }

  lemma TriangleEdges(a: Vec, b: Vec, c: Vec)
    ensures Normal([a, b, c]) == Add(Add(Edge(a, b), Edge(b, c)), Edge(c, a))
  {
    var p := [a, b, c];
    assert p[..2] == [a, b] && [a, b][..1] == [a];
    assert Along([a, b]) == Add(Along([a]), Edge(a, b)) == Edge(a, b);
    assert Along(p) == Add(Edge(a, b), Edge(b, c));
  }

  lemma TriangleNormal(a: Vec, b: Vec, c: Vec)
    ensures Normal([a, b, c]) == Facing(a, b, c)
  {
    TriangleEdges(a, b, c);
    Shadow(a.y, a.z, b.y, b.z, c.y, c.z);
    Shadow(a.z, a.x, b.z, b.x, c.z, c.x);
    Shadow(a.x, a.y, b.x, b.y, c.x, c.y);
  }

  lemma Across(ux: real, uy: real, uz: real, vx: real, vy: real, vz: real)
    ensures (uy * vz - uz * vy) * ux + (uz * vx - ux * vz) * uy + (ux * vy - uy * vx) * uz == 0.0
  {
    assert (uy * vz - uz * vy) * ux == (ux * uy) * vz - (ux * uz) * vy;
    assert (uz * vx - ux * vz) * uy == (uy * uz) * vx - (ux * uy) * vz;
    assert (ux * vy - uy * vx) * uz == (ux * uz) * vy - (uy * uz) * vx;
  }

  lemma AcrossBoth(ux: real, uy: real, uz: real, vx: real, vy: real, vz: real)
    ensures (uy * vz - uz * vy) * vx + (uz * vx - ux * vz) * vy + (ux * vy - uy * vx) * vz == 0.0
  {
    Across(vx, vy, vz, ux, uy, uz);
    assert (vy * uz - vz * uy) * vx == -((uy * vz - uz * vy) * vx);
    assert (vz * ux - vx * uz) * vy == -((uz * vx - ux * vz) * vy);
    assert (vx * uy - vy * ux) * vz == -((ux * vy - uy * vx) * vz);
  }

  /** `n` is square to both edges. */
  predicate Square(n: Vec, a: Vec, b: Vec, c: Vec) {
    && n.x * (b.x - a.x) + n.y * (b.y - a.y) + n.z * (b.z - a.z) == 0.0
    && n.x * (c.x - a.x) + n.y * (c.y - a.y) + n.z * (c.z - a.z) == 0.0
  }

  lemma FacingIsSquare(a: Vec, b: Vec, c: Vec)
    ensures Square(Facing(a, b, c), a, b, c)
  {
    Across(b.x - a.x, b.y - a.y, b.z - a.z, c.x - a.x, c.y - a.y, c.z - a.z);
    AcrossBoth(b.x - a.x, b.y - a.y, b.z - a.z, c.x - a.x, c.y - a.y, c.z - a.z);
  }

  /** All of `pts` lie in the plane through `a` that `n` is square to. */
  ghost predicate Flat(pts: seq<Vec>, n: Vec, a: Vec) { forall i :: 0 <= i < |pts| ==> Ahead(n, a, pts[i]) == 0.0 }

  lemma AheadIsDot(n: Vec, a: Vec, p: Vec)
    ensures Ahead(n, a, p) == Dot(n, p) - Dot(n, a)
  {
    assert n.x * (p.x - a.x) == n.x * p.x - n.x * a.x;
    assert n.y * (p.y - a.y) == n.y * p.y - n.y * a.y;
    assert n.z * (p.z - a.z) == n.z * p.z - n.z * a.z;
  }

  lemma DotAdds(n: Vec, a: Vec, b: Vec)
    ensures Dot(n, Add(a, b)) == Dot(n, a) + Dot(n, b)
  {
    assert n.x * (a.x + b.x) == n.x * a.x + n.x * b.x;
    assert n.y * (a.y + b.y) == n.y * a.y + n.y * b.y;
    assert n.z * (a.z + b.z) == n.z * a.z + n.z * b.z;
  }

  lemma DotOver(n: Vec, a: Vec, k: nat)
    requires k > 0
    ensures Dot(n, Over(a, k)) == Dot(n, a) / k as real
  {
    var r := k as real;
    assert n.x * (a.x / r) == (n.x * a.x) / r;
    assert n.y * (a.y / r) == (n.y * a.y) / r;
    assert n.z * (a.z / r) == (n.z * a.z) / r;
  }

  lemma OneMore(k: nat, s: real)
    ensures k as real * s + s == (k + 1) as real * s
  {
  }

  lemma {:induction false} LevelSum(pts: seq<Vec>, n: Vec, s: real)
    requires forall i :: 0 <= i < |pts| ==> Dot(n, pts[i]) == s
    ensures Dot(n, Sum(pts)) == |pts| as real * s
  {
    if pts != [] {
      var k := |pts| - 1;
      LevelSum(pts[..k], n, s);
      DotAdds(n, Sum(pts[..k]), pts[k]);
      OneMore(k, s);
    }
  }

  lemma Mean(sum: real, k: real, s: real)
    requires k != 0.0 && sum == k * s
    ensures sum / k == s
  {
  }

  lemma LevelCentroid(pts: seq<Vec>, n: Vec, s: real)
    requires pts != [] && forall i :: 0 <= i < |pts| ==> Dot(n, pts[i]) == s
    ensures Dot(n, Centroid(pts)) == s
  {
    LevelSum(pts, n, s);
    DotOver(n, Sum(pts), |pts|);
    Mean(Dot(n, Sum(pts)), |pts| as real, s);
  }

  /** So does their centroid. */
  lemma FlatCentroid(pts: seq<Vec>, n: Vec, a: Vec)
    requires pts != [] && Flat(pts, n, a)
    ensures Dot(n, Centroid(pts)) == Dot(n, a)
  {
    var s := Dot(n, a);
    forall i | 0 <= i < |pts| ensures Dot(n, pts[i]) == s { AheadIsDot(n, a, pts[i]); }
    LevelCentroid(pts, n, s);
  }

  /** The lean of a flat polygon from a point is how far the point lies behind it, whichever of its corners
      that is measured from. */
  lemma FlatLean(pts: seq<Vec>, n: Vec, a: Vec, p: Vec)
    requires pts != [] && Normal(pts) == n && Flat(pts, n, a)
    ensures Lean(pts, p) == -Ahead(n, a, p)
  {
    FlatCentroid(pts, n, a);
    AheadIsDot(n, a, p);
    AheadIsDot(n, p, Centroid(pts));
  }

  lemma TriangleIsFlat(a: Vec, b: Vec, c: Vec)
    ensures Flat([a, b, c], Facing(a, b, c), a)
  {
    var n := Facing(a, b, c);
    FacingIsSquare(a, b, c);
    assert Ahead(n, a, a) == 0.0 && Ahead(n, a, b) == 0.0 && Ahead(n, a, c) == 0.0;
  }

  /** The lean of a triangle from a point is minus that volume: the normal points away from the points behind
      the plane. */
  lemma TriangleLean(a: Vec, b: Vec, c: Vec, p: Vec)
    ensures Lean([a, b, c], p) == -Side(a, b, c, p)
  {
    TriangleNormal(a, b, c);
    FacingIsSquare(a, b, c);
    TriangleIsFlat(a, b, c);
    FlatLean([a, b, c], Facing(a, b, c), a, p);
  }

  /** Seen the other way round, every point is on the other side. */
  lemma SideTurns(a: Vec, b: Vec, c: Vec, p: Vec)
    ensures Side(c, b, a, p) == -Side(a, b, c, p)
  {
    TriangleLean(a, b, c, p);
    TriangleLean(c, b, a, p);
    var t := [a, b, c];
    assert t[1..] == [b, c] && [b, c][1..] == [c] && [c][1..] == [];
    assert Rev([c]) == [c] && Rev([b, c]) == [c, b] && Rev(t) == [c, b, a];
    LeanTurns(t, p);
  }

  // ---- the vote of a face -----------------------------------------------------------------------------

  /** A flat face with at least three corners, of a cell that has been gathered. */
  ghost predicate FlatFace(f: Face, coords: map<nat, Vec>, cells: map<nat, Cell>) {
    var pts := Points(f.nodes, coords);
    && |pts| >= 3 && Flat(pts, Normal(pts), pts[0])
    && Owner(f) in cells && cells[Owner(f)].count != 0
  }

  /** The mean of what was gathered of a cell. */
  function Middle(cell: Cell): Vec
    requires cell.count != 0
  {
    var n := cell.count as real;
    Vec(cell.sum.x / n, cell.sum.y / n, cell.sum.z / n)
  }

  /** The side of the face on which its cell lies, as seen along its area vector. */
  function OwnerSide(f: Face, coords: map<nat, Vec>, cells: map<nat, Cell>): real
    requires Points(f.nodes, coords) != [] && Owner(f) in cells && cells[Owner(f)].count != 0
  {
    var pts := Points(f.nodes, coords);
    Ahead(Normal(pts), pts[0], Middle(cells[Owner(f)]))
  }

  /** OUTWARD, IN COORDINATES. A flat face counts as outward exactly when its cell lies strictly behind it, if
      that is `c0`, and strictly in front of it, if that is `c1`; a face between two cells never does. */
  lemma FlatVote(f: Face, coords: map<nat, Vec>, cells: map<nat, Cell>)
    requires FlatFace(f, coords, cells)
    ensures VoteOf(f, coords, cells) != Skipped
    ensures VoteOf(f, coords, cells) == Outward
      <==> (f.c1 == 0 && OwnerSide(f, coords, cells) < 0.0) || (f.c0 == 0 && OwnerSide(f, coords, cells) > 0.0)
  {
    var pts := Points(f.nodes, coords);
    FlatLean(pts, Normal(pts), pts[0], Centre(cells[Owner(f)]));
  }

  lemma {:induction false} ThreePoints(nodes: seq<nat>, coords: map<nat, Vec>)
    requires |nodes| == 3 && nodes[0] in coords && nodes[1] in coords && nodes[2] in coords
    ensures Points(nodes, coords) == [coords[nodes[0]], coords[nodes[1]], coords[nodes[2]]]
  {
    assert nodes[1..][1..] == nodes[2..] && nodes[2..][1..] == [];
    assert Points(nodes[2..], coords) == [coords[nodes[2]]];
    assert Points(nodes[1..], coords) == [coords[nodes[1]]] + Points(nodes[2..], coords);
  }

  /** A triangle is flat, and its cell's side is the sign of the volume that its corners span with the middle of
      the cell. */
  lemma {:induction false} TriangleVote(f: Face, coords: map<nat, Vec>, cells: map<nat, Cell>)
    requires |f.nodes| == 3 && f.nodes[0] in coords && f.nodes[1] in coords && f.nodes[2] in coords
    requires Owner(f) in cells && cells[Owner(f)].count != 0
    ensures var (a, b, c) := (coords[f.nodes[0]], coords[f.nodes[1]], coords[f.nodes[2]]);
      && Points(f.nodes, coords) == [a, b, c] && FlatFace(f, coords, cells)
      && OwnerSide(f, coords, cells) == Side(a, b, c, Middle(cells[Owner(f)]))
  {
    ThreePoints(f.nodes, coords);
    var (a, b, c) := (coords[f.nodes[0]], coords[f.nodes[1]], coords[f.nodes[2]]);
    TriangleNormal(a, b, c);
    TriangleIsFlat(a, b, c);
  }

  /** `z` has gathered what `x` and `y` have. */
  predicate Together(x: Cell, y: Cell, z: Cell) {
    && z.count == x.count + y.count && z.sum.x == x.sum.x + y.sum.x
    && z.sum.y == x.sum.y + y.sum.y && z.sum.z == x.sum.z + y.sum.z
  }

  lemma GrowTogether(x: Cell, y: Cell, z: Cell, mean: Vec)
    requires Together(x, y, z)
    ensures Together(x, Grown(y, mean), Grown(z, mean))
  {
  }

  lemma GatherTogether(x: Cell, y: Cell, z: Cell, f: Face, coords: map<nat, Vec>, c: nat)
    requires Together(x, y, z)
    ensures Together(x, Gathered(y, f, coords, c), Gathered(z, f, coords, c))
  {
    var p := Points(f.nodes, coords);
    if p != [] {
      var mean := Centroid(p);
      GrowTogether(x, y, z, mean);
      GrowTogether(x, Grown(y, mean), Grown(z, mean), mean);
    }
  }

  /** What is gathered of a cell adds up over the faces: each face that names it, once for each side. */
  lemma {:induction false} CellAdds(a: seq<Face>, b: seq<Face>, coords: map<nat, Vec>, c: nat)
    ensures Together(CellOf(a, coords, c), CellOf(b, coords, c), CellOf(a + b, coords, c))
  {
    if b == [] {
      assert a + b == a;
    } else {
      var n := |b| - 1;
      CellAdds(a, b[..n], coords, c);
      assert (a + b)[..|a| + n] == a + b[..n];
      GatherTogether(CellOf(a, coords, c), CellOf(b[..n], coords, c), CellOf(a + b[..n], coords, c), b[n], coords, c);
    }
  }

  /** One triangle gives each of its cells the mean of its corners. */
  lemma {:induction false} CellOfTriangle(f: Face, coords: map<nat, Vec>, c: nat)
    requires |f.nodes| == 3 && f.nodes[0] in coords && f.nodes[1] in coords && f.nodes[2] in coords
    requires f.c0 != f.c1
    ensures var cell := CellOf([f], coords, c);
      var (p, q, r) := (coords[f.nodes[0]], coords[f.nodes[1]], coords[f.nodes[2]]);
      if c == f.c0 || c == f.c1
      then cell == Cell(Vec((p.x + q.x + r.x) / 3.0, (p.y + q.y + r.y) / 3.0, (p.z + q.z + r.z) / 3.0), 1)
      else cell == Cell(Vec(0.0, 0.0, 0.0), 0)
  {
    ThreePoints(f.nodes, coords);
    var (p, q, r) := (coords[f.nodes[0]], coords[f.nodes[1]], coords[f.nodes[2]]);
    var s := [p, q, r];
    assert s[..2] == [p, q] && [p, q][..1] == [p] && [p][..0] == [];
    assert Sum([p]) == p && Sum([p, q]) == Add(p, q) && Sum(s) == Add(Add(p, q), r);
    assert [f][..0] == [];
    assert CellOf([f], coords, c) == Gathered(Cell(ZERO, 0), f, coords, c);
  }

  // ---- what the repair does ----------------------------------------------------------------------------

  /** The face has one cell and is wound to look away from it. */
  ghost predicate LooksOut(f: Face, coords: map<nat, Vec>, cells: map<nat, Cell>) {
    && FlatFace(f, coords, cells)
    && ((f.c0 != 0 && f.c1 == 0 && OwnerSide(f, coords, cells) < 0.0)
        || (f.c0 == 0 && f.c1 != 0 && OwnerSide(f, coords, cells) > 0.0))
  }

  /** The face has one cell and is wound to look into it. */
  ghost predicate LooksIn(f: Face, coords: map<nat, Vec>, cells: map<nat, Cell>) {
    && FlatFace(f, coords, cells)
    && ((f.c0 != 0 && f.c1 == 0 && OwnerSide(f, coords, cells) > 0.0)
        || (f.c0 == 0 && f.c1 != 0 && OwnerSide(f, coords, cells) < 0.0))
  }

  lemma {:induction false} AllOut(samples: seq<Face>, coords: map<nat, Vec>, cells: map<nat, Cell>)
    requires forall f :: f in samples ==> LooksOut(f, coords, cells)
    ensures Count(samples, coords, cells, Outward) == |samples| && Count(samples, coords, cells, NotOutward) == 0
  {
    if samples != [] {
      var n := |samples| - 1;
      AllOut(samples[..n], coords, cells);
      assert samples[n] in samples;
      FlatVote(samples[n], coords, cells);
    }
  }

  lemma {:induction false} AllIn(samples: seq<Face>, coords: map<nat, Vec>, cells: map<nat, Cell>)
    requires forall f :: f in samples ==> LooksIn(f, coords, cells)
    ensures Count(samples, coords, cells, Outward) == 0 && Count(samples, coords, cells, NotOutward) == |samples|
  {
    if samples != [] {
      var n := |samples| - 1;
      AllIn(samples[..n], coords, cells);
      assert samples[n] in samples;
      FlatVote(samples[n], coords, cells);
    }
  }

  /** A ZONE WOUND OUTWARD KEEPS ITS FACES. */
  lemma {:induction false} WellWoundZonesStay(m: Mesh, overrides: Overrides, samples: int, i: nat)
    requires samples != 0 && i < |m.sections|
    requires forall f :: f in SampleOf(m.sections, samples, m.sections[i].id) ==>
        LooksOut(f, m.coords, CellsOf(m, samples))
    ensures RepairedFile(m, overrides, samples).sections[i].faces == m.sections[i].faces
  {
    var sample := SampleOf(m.sections, samples, m.sections[i].id);
    AllOut(sample, m.coords, CellsOf(m, samples));
    InvertedMeans(sample, m.coords, CellsOf(m, samples));
    FlipsMeans(m, samples, |m.sections|, m.sections[i].id);
  }

  /** The face walked the other way round, between the same cells. */
  predicate Reversed(f: Face, g: Face) {
    && g.c0 == f.c0 && g.c1 == f.c1 && |g.nodes| == |f.nodes|
    && forall k :: 0 <= k < |f.nodes| ==> g.nodes[k] == f.nodes[|f.nodes| - 1 - k]
  }

  lemma {:induction false} RevAt<T>(s: seq<T>, k: nat)
    requires k < |s|
    ensures Rev(s)[k] == s[|s| - 1 - k]
  {
    if k < |s| - 1 { RevAt(s[1..], k); }
  }

  lemma TurnedIsReversed(f: Face)
    ensures Reversed(f, Turned(f))
  {
    forall k | 0 <= k < |f.nodes| ensures Turned(f).nodes[k] == f.nodes[|f.nodes| - 1 - k] { RevAt(f.nodes, k); }
  }

  lemma SampledSection(sections: seq<Section>, samples: int, id: nat) returns (k: nat)
    requires samples != 0 && SampleOf(sections, samples, id) != []
    ensures k < |sections| && sections[k].id == id && sections[k].bc != 2
  {
    var n := |sections| - 1;
    if sections[n].id == id { k := n; } else { k := SampledSection(sections[..n], samples, id); }
  }

  /** A ZONE WOUND INWARD COMES BACK REVERSED: a boundary zone all of whose sampled faces look into their
      cells has every face of its section walked the other way round. */
  lemma {:induction false} InsideOutZonesTurn(m: Mesh, overrides: Overrides, samples: int, i: nat, last: nat)
    requires samples != 0 && i < |m.sections|
    requires LastWith(m.zones, last) && m.zones[last].id == m.sections[i].id && Boundary(m.zones[last])
    requires SampleOf(m.sections, samples, m.sections[i].id) != []
    requires forall f :: f in SampleOf(m.sections, samples, m.sections[i].id) ==>
        LooksIn(f, m.coords, CellsOf(m, samples))
    ensures var (was, now) := (m.sections[i].faces, RepairedFile(m, overrides, samples).sections[i].faces);
      |now| == |was| && forall k :: 0 <= k < |was| ==> Reversed(was[k], now[k])
  {
    var id := m.sections[i].id;
    var sample := SampleOf(m.sections, samples, id);
    AllIn(sample, m.coords, CellsOf(m, samples));
    InvertedMeans(sample, m.coords, CellsOf(m, samples));
    FlipsMeans(m, samples, |m.sections|, id);
    var k := SampledSection(m.sections, samples, id);
    RepeatedLinesFollowTheLast(m, overrides, samples, last, last);
    forall j | 0 <= j < |m.sections[i].faces| ensures Reversed(m.sections[i].faces[j], Turned(m.sections[i].faces[j])) {
      TurnedIsReversed(m.sections[i].faces[j]);
    }
  }

  // ---- sampling -----------------------------------------------------------------------------------------

  lemma OneStep(n: int, samples: int)
    requires samples > 0 && n < 2 * samples
    ensures Step(n, samples) == 1
  {
  }

  lemma {:induction false} TakesAll(s: Section, samples: int, k: nat)
    requires samples != 0 && k <= |s.faces| <= s.last - s.first + 1 && s.bc != 2
    requires Step(s.last - s.first + 1, samples) == 1
    ensures SampledUpTo(s, samples, k) == s.faces[..k]
  {
    if k > 0 {
      TakesAll(s, samples, k - 1);
      assert s.faces[..k] == s.faces[..k - 1] + [s.faces[k - 1]];
    }
  }

  /** A section of fewer than twice as many faces as samples are asked for is sampled whole. */
  lemma SmallSectionsAreSampledWhole(s: Section, samples: int)
    requires samples > 0 && s.bc != 2
    requires |s.faces| == s.last - s.first + 1 < 2 * samples
    ensures Sampled(s, samples) == s.faces
  {
    OneStep(s.last - s.first + 1, samples);
    TakesAll(s, samples, |s.faces|);
    assert s.faces[..|s.faces|] == s.faces;
  }

  /** The first face of every section that is not interior is sampled, and no interior one. */
  lemma {:induction false} FirstIsSampled(s: Section, samples: int, k: nat)
    requires samples != 0 && 0 < k <= |s.faces| && s.first <= s.last
    ensures if s.bc == 2 then SampledUpTo(s, samples, k) == []
            else SampledUpTo(s, samples, k) != [] && SampledUpTo(s, samples, k)[0] == s.faces[0]
  {
    if k > 1 {
      FirstIsSampled(s, samples, k - 1);
    } else {
      assert 0 % Step(s.last - s.first + 1, samples) == 0;
    }
  }

  // ---- a tetrahedron ------------------------------------------------------------------------------------

  const A := Vec(0.0, 0.0, 0.0)
  const B := Vec(12.0, 0.0, 0.0)
  const C := Vec(0.0, 12.0, 0.0)
  const D := Vec(0.0, 0.0, 12.0)

  const TETRA: map<nat, Vec> := map[1 := A, 2 := B, 3 := C, 4 := D]

  /** Its faces, each wound to look away from the others, and walked the other way round. */
  const OUTSIDE := [Face([1, 3, 2], 1, 0), Face([1, 2, 4], 1, 0), Face([1, 4, 3], 1, 0), Face([2, 3, 4], 1, 0)]

  const INSIDE := [Face([2, 3, 1], 1, 0), Face([4, 2, 1], 1, 0), Face([3, 4, 1], 1, 0), Face([4, 3, 2], 1, 0)]

  function Solid(faces: seq<Face>): Mesh {
    Mesh([Zone(3, "wall", "w")], [Section(3, 1, 4, 3, faces)], TETRA)
  }

  lemma SolidFaces(faces: seq<Face>, s: Section)
    requires |faces| == 4 && s == Section(3, 1, 4, 3, faces)
    ensures SampleOf([s], 40, 3) == faces && AllFaces([s]) == faces
  {
    SmallSectionsAreSampledWhole(s, 40);
    assert [s][..0] == [];
  }

  lemma SolidWanted(faces: seq<Face>, s: Section)
    requires |faces| == 4 && s.id == 3 && SampleOf([s], 40, 3) == faces && forall f :: f in faces ==> Owner(f) == 1
    ensures Wanted([s], 40) == {1}
  {
    assert s in [s] && faces[0] in SampleOf([s], 40, s.id);
    forall c | c in Wanted([s], 40) ensures c == 1 {
      var t, f :| t in [s] && f in SampleOf([s], 40, t.id) && Owner(f) == c;
      assert t == s;
    }
  }

  lemma {:induction false} OnlyCell(faces: seq<Face>, coords: map<nat, Vec>)
    ensures Cells(faces, coords, {1}) == map[1 := CellOf(faces, coords, 1)]
  {
  }

  lemma {:induction false} SolidSample(faces: seq<Face>)
    requires |faces| == 4 && forall f :: f in faces ==> Owner(f) == 1
    ensures SampleOf(Solid(faces).sections, 40, 3) == faces && AllFaces(Solid(faces).sections) == faces
    ensures CellsOf(Solid(faces), 40) == map[1 := CellOf(faces, TETRA, 1)]
  {
    SolidFaces(faces, Section(3, 1, 4, 3, faces));
    SolidWanted(faces, Section(3, 1, 4, 3, faces));
    OnlyCell(faces, TETRA);
  }

  /** One more triangle of cell 1. */
  lemma {:induction false} NextTriangle(front: seq<Face>, f: Face, cell: Cell, p: Vec, q: Vec, r: Vec, now: Cell)
    requires CellOf(front, TETRA, 1) == cell && Points(f.nodes, TETRA) == [p, q, r] && f.c0 == 1 && f.c1 == 0
    requires now.count == cell.count + 1 && now.sum.x == cell.sum.x + (p.x + q.x + r.x) / 3.0
    requires now.sum.y == cell.sum.y + (p.y + q.y + r.y) / 3.0 && now.sum.z == cell.sum.z + (p.z + q.z + r.z) / 3.0
    ensures CellOf(front + [f], TETRA, 1) == now
  {
    TriangleCentroid(p, q, r);
    assert (front + [f])[..|front|] == front;
  }

  lemma TriangleCentroid(p: Vec, q: Vec, r: Vec)
    ensures Centroid([p, q, r]) == Vec((p.x + q.x + r.x) / 3.0, (p.y + q.y + r.y) / 3.0, (p.z + q.z + r.z) / 3.0)
  {
    var s := [p, q, r];
    assert s[..2] == [p, q] && [p, q][..1] == [p] && [p][..0] == [];
    assert Sum([p]) == p && Sum([p, q]) == Add(p, q) && Sum(s) == Add(Add(p, q), r);
  }

  /** The corners of the faces. */
  lemma TetraPoints()
    ensures Points([1, 3, 2], TETRA) == [A, C, B] && Points([2, 3, 1], TETRA) == [B, C, A]
    ensures Points([1, 2, 4], TETRA) == [A, B, D] && Points([4, 2, 1], TETRA) == [D, B, A]
    ensures Points([1, 4, 3], TETRA) == [A, D, C] && Points([3, 4, 1], TETRA) == [C, D, A]
    ensures Points([2, 3, 4], TETRA) == [B, C, D] && Points([4, 3, 2], TETRA) == [D, C, B]
  {
    ThreePoints([1, 3, 2], TETRA);
    ThreePoints([2, 3, 1], TETRA);
    ThreePoints([1, 2, 4], TETRA);
    ThreePoints([4, 2, 1], TETRA);
    ThreePoints([1, 4, 3], TETRA);
    ThreePoints([3, 4, 1], TETRA);
    ThreePoints([2, 3, 4], TETRA);
    ThreePoints([4, 3, 2], TETRA);
  }

  /** The middle of the tetrahedron, from its faces in one winding or the other. */
  lemma {:induction false} TetraMiddle(f: Face, g: Face, h: Face, k: Face, faces: seq<Face>)
    requires f.c0 == g.c0 == h.c0 == k.c0 == 1 && f.c1 == g.c1 == h.c1 == k.c1 == 0 && faces == [f, g, h, k]
    requires Points(f.nodes, TETRA) in {[A, C, B], [B, C, A]} && Points(g.nodes, TETRA) in {[A, B, D], [D, B, A]}
    requires Points(h.nodes, TETRA) in {[A, D, C], [C, D, A]} && Points(k.nodes, TETRA) in {[B, C, D], [D, C, B]}
    ensures CellOf(faces, TETRA, 1) == Cell(Vec(12.0, 12.0, 12.0), 4)
  {
    Corner(f.nodes);
    Corner(g.nodes);
    Corner(h.nodes);
    Corner(k.nodes);
    var (p, q, r, s) := (Points(f.nodes, TETRA), Points(g.nodes, TETRA), Points(h.nodes, TETRA),
        Points(k.nodes, TETRA));
    NextTriangle([], f, Cell(ZERO, 0), p[0], p[1], p[2], Cell(Vec(4.0, 4.0, 0.0), 1));
    NextTriangle([] + [f], g, Cell(Vec(4.0, 4.0, 0.0), 1), q[0], q[1], q[2], Cell(Vec(8.0, 4.0, 4.0), 2));
    NextTriangle([] + [f] + [g], h, Cell(Vec(8.0, 4.0, 4.0), 2), r[0], r[1], r[2], Cell(Vec(8.0, 8.0, 8.0), 3));
    NextTriangle([] + [f] + [g] + [h], k, Cell(Vec(8.0, 8.0, 8.0), 3), s[0], s[1], s[2],
        Cell(Vec(12.0, 12.0, 12.0), 4));
    assert [] + [f] + [g] + [h] + [k] == faces;
  }

  lemma {:induction false} Corner(nodes: seq<nat>)
    requires |Points(nodes, TETRA)| == 3
    ensures var p := Points(nodes, TETRA); p == [p[0], p[1], p[2]]
  {
  }

  const MIDDLE := Vec(3.0, 3.0, 3.0)

  const TETRA_CELLS: map<nat, Cell> := map[1 := Cell(Vec(12.0, 12.0, 12.0), 4)]

  lemma SideValue(a: Vec, b: Vec, c: Vec, n: Vec, v: real)
    requires Facing(a, b, c) == n
    requires v == n.x * (MIDDLE.x - a.x) + n.y * (MIDDLE.y - a.y) + n.z * (MIDDLE.z - a.z)
    ensures Side(a, b, c, MIDDLE) == v
  {
  }

  lemma FacingIs(a: Vec, b: Vec, c: Vec, u: Vec, v: Vec, n: Vec)
    requires b.x - a.x == u.x && b.y - a.y == u.y && b.z - a.z == u.z
    requires c.x - a.x == v.x && c.y - a.y == v.y && c.z - a.z == v.z
    requires n.x == u.y * v.z - u.z * v.y && n.y == u.z * v.x - u.x * v.z && n.z == u.x * v.y - u.y * v.x
    ensures Facing(a, b, c) == n
  {
  }

  lemma SideIs(a: Vec, b: Vec, c: Vec, u: Vec, v: Vec, n: Vec, s: real)
    requires b.x - a.x == u.x && b.y - a.y == u.y && b.z - a.z == u.z
    requires c.x - a.x == v.x && c.y - a.y == v.y && c.z - a.z == v.z
    requires n.x == u.y * v.z - u.z * v.y && n.y == u.z * v.x - u.x * v.z && n.z == u.x * v.y - u.y * v.x
    requires s == n.x * (MIDDLE.x - a.x) + n.y * (MIDDLE.y - a.y) + n.z * (MIDDLE.z - a.z)
    ensures Side(a, b, c, MIDDLE) == s && Side(c, b, a, MIDDLE) == -s
  {
    FacingIs(a, b, c, u, v, n);
    SideValue(a, b, c, n, s);
    SideTurns(a, b, c, MIDDLE);
  }

  lemma FloorSide()
    ensures Side(A, C, B, MIDDLE) == -432.0 && Side(B, C, A, MIDDLE) == 432.0
  {
    SideIs(A, C, B, C, B, Vec(0.0, 0.0, -144.0), -432.0);
  }

  lemma FrontSide()
    ensures Side(A, B, D, MIDDLE) == -432.0 && Side(D, B, A, MIDDLE) == 432.0
  {
    SideIs(A, B, D, B, D, Vec(0.0, -144.0, 0.0), -432.0);
  }

  lemma LeftSide()
    ensures Side(A, D, C, MIDDLE) == -432.0 && Side(C, D, A, MIDDLE) == 432.0
  {
    SideIs(A, D, C, D, C, Vec(-144.0, 0.0, 0.0), -432.0);
  }

  lemma SlopeSide()
    ensures Side(B, C, D, MIDDLE) == -432.0 && Side(D, C, B, MIDDLE) == 432.0
  {
    SideIs(B, C, D, Vec(-12.0, 12.0, 0.0), Vec(-12.0, 0.0, 12.0), Vec(144.0, 144.0, 144.0), -432.0);
  }

  lemma SidesOfMiddle()
    ensures Side(A, C, B, MIDDLE) < 0.0 && Side(A, B, D, MIDDLE) < 0.0
    ensures Side(A, D, C, MIDDLE) < 0.0 && Side(B, C, D, MIDDLE) < 0.0
    ensures Side(B, C, A, MIDDLE) > 0.0 && Side(D, B, A, MIDDLE) > 0.0
    ensures Side(C, D, A, MIDDLE) > 0.0 && Side(D, C, B, MIDDLE) > 0.0
  {
    FloorSide();
    FrontSide();
    LeftSide();
    SlopeSide();
  }

  /** A face of the tetrahedron looks out or in as the sign of the volume says. */
  lemma TetraFace(f: Face, a: Vec, b: Vec, c: Vec)
    requires |f.nodes| == 3 && f.nodes[0] in TETRA && f.nodes[1] in TETRA && f.nodes[2] in TETRA
    requires f.c0 == 1 && f.c1 == 0 && Points(f.nodes, TETRA) == [a, b, c]
    ensures Side(a, b, c, MIDDLE) < 0.0 ==> LooksOut(f, TETRA, TETRA_CELLS)
    ensures Side(a, b, c, MIDDLE) > 0.0 ==> LooksIn(f, TETRA, TETRA_CELLS)
  {
    TriangleVote(f, TETRA, TETRA_CELLS);
    ThreePoints(f.nodes, TETRA);
    assert [a, b, c][0] == a && [a, b, c][1] == b && [a, b, c][2] == c;
    assert Middle(TETRA_CELLS[1]) == MIDDLE;
  }

  lemma OutsideLooksOut()
    ensures forall f :: f in OUTSIDE ==> LooksOut(f, TETRA, TETRA_CELLS)
  {
    TetraPoints();
    SidesOfMiddle();
    TetraFace(OUTSIDE[0], A, C, B);
    TetraFace(OUTSIDE[1], A, B, D);
    TetraFace(OUTSIDE[2], A, D, C);
    TetraFace(OUTSIDE[3], B, C, D);
  }

  lemma InsideLooksIn()
    ensures forall f :: f in INSIDE ==> LooksIn(f, TETRA, TETRA_CELLS)
  {
    TetraPoints();
    SidesOfMiddle();
    TetraFace(INSIDE[0], B, C, A);
    TetraFace(INSIDE[1], D, B, A);
    TetraFace(INSIDE[2], C, D, A);
    TetraFace(INSIDE[3], D, C, B);
  }

  lemma OutsideCells()
    ensures SampleOf(Solid(OUTSIDE).sections, 40, 3) == OUTSIDE && CellsOf(Solid(OUTSIDE), 40) == TETRA_CELLS
  {
    SolidSample(OUTSIDE);
    TetraPoints();
    TetraMiddle(OUTSIDE[0], OUTSIDE[1], OUTSIDE[2], OUTSIDE[3], OUTSIDE);
  }

  lemma InsideCells()
    ensures SampleOf(Solid(INSIDE).sections, 40, 3) == INSIDE && CellsOf(Solid(INSIDE), 40) == TETRA_CELLS
  {
    SolidSample(INSIDE);
    TetraPoints();
    TetraMiddle(INSIDE[0], INSIDE[1], INSIDE[2], INSIDE[3], INSIDE);
  }

  /** The repair leaves the outward-wound tetrahedron as it is. */
  lemma OutwardTetrahedronStays()
    ensures RepairedFile(Solid(OUTSIDE), map[], 40).sections[0].faces == OUTSIDE
  {
    OutsideCells();
    OutsideLooksOut();
    WellWoundZonesStay(Solid(OUTSIDE), map[], 40, 0);
  }

  lemma OppositeFaces(k: nat, g: Face)
    requires k < 4 && Reversed(INSIDE[k], g)
    ensures g == OUTSIDE[k]
  {
    assert |g.nodes| == 3 && g.nodes == [g.nodes[0], g.nodes[1], g.nodes[2]];
  }

  lemma AllOpposite(now: seq<Face>)
    requires |now| == |INSIDE| && forall k :: 0 <= k < |INSIDE| ==> Reversed(INSIDE[k], now[k])
    ensures now == OUTSIDE
  {
    forall k | 0 <= k < 4 ensures now[k] == OUTSIDE[k] { OppositeFaces(k, now[k]); }
  }

  /** And it turns the inward-wound one into it. */
  lemma InwardTetrahedronTurns()
    ensures RepairedFile(Solid(INSIDE), map[], 40).sections[0].faces == OUTSIDE
  {
    InsideCells();
    InsideLooksIn();
    assert LastWith(Solid(INSIDE).zones, 0);
    InsideOutZonesTurn(Solid(INSIDE), map[], 40, 0, 0);
    AllOpposite(RepairedFile(Solid(INSIDE), map[], 40).sections[0].faces);
  }
}
