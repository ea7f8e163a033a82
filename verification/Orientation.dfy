/** Telling outward boundary faces from inward ones, and what reversing a zone's faces does to the
    verdict (devtools/validation/fluent_repair.py). A cell number of zero means "no cell". */
module Orientation {
  import opened Wrappers
  import opened Newell

  datatype Face = Face(nodes: seq<nat>, c0: nat, c1: nat)

  /** Running total of the centroids of a cell's faces. */
  datatype Cell = Cell(sum: Vec, count: nat)

  datatype Vote = Skipped | Outward | NotOutward

  function Owner(f: Face): nat { if f.c0 != 0 then f.c0 else f.c1 }

  function Turned(f: Face): Face { f.(nodes := Rev(f.nodes)) }

  function Points(nodes: seq<nat>, coords: map<nat, Vec>): seq<Vec> {
    if nodes == [] then []
    else (if nodes[0] in coords then [coords[nodes[0]]] else []) + Points(nodes[1..], coords)
  }

  /** The faces of the wanted cells name their corners, and the file lists every one of them. */
  ghost predicate Readable(faces: seq<Face>, coords: map<nat, Vec>, wanted: set<nat>) {
    forall f :: f in faces && (f.c0 in wanted || f.c1 in wanted) ==>
      f.nodes != [] && forall v :: v in f.nodes ==> v in coords
  }

  lemma {:induction false} AllPoints(nodes: seq<nat>, coords: map<nat, Vec>)
    requires forall v :: v in nodes ==> v in coords
    ensures |Points(nodes, coords)| == |nodes|
  {
    if nodes != [] { AllPoints(nodes[1..], coords); }
  }

  function Grown(cell: Cell, mean: Vec): Cell { Cell(Add(cell.sum, mean), cell.count + 1) }

  ghost function Gathered(cell: Cell, f: Face, coords: map<nat, Vec>, c: nat): Cell {
    var p := Points(f.nodes, coords);
    if p == [] then cell
    else
      var once := if f.c0 == c then Grown(cell, Centroid(p)) else cell;
      if f.c1 == c then Grown(once, Centroid(p)) else once
  }

  ghost function CellOf(faces: seq<Face>, coords: map<nat, Vec>, c: nat): Cell {
    if faces == [] then Cell(ZERO, 0)
    else Gathered(CellOf(faces[..|faces| - 1], coords, c), faces[|faces| - 1], coords, c)
  }

  ghost function Cells(faces: seq<Face>, coords: map<nat, Vec>, wanted: set<nat>): map<nat, Cell> {
    map c | c in wanted :: CellOf(faces, coords, c)
  }

  function Centre(cell: Cell): Vec
    requires cell.count != 0
  {
    Over(cell.sum, cell.count)
  }

  /** How far the winding normal points from the owner cell's centre towards the face. */
  function Lean(pts: seq<Vec>, centre: Vec): real
    requires pts != []
  {
    Dot(Normal(pts), Sub(Centroid(pts), centre))
  }

  function VoteOf(f: Face, coords: map<nat, Vec>, cells: map<nat, Cell>): Vote {
    if Owner(f) !in cells || cells[Owner(f)].count == 0 then Skipped
    else
      var pts := Points(f.nodes, coords);
      if |pts| < 3 then Skipped
      else
        var dot := Lean(pts, Centre(cells[Owner(f)]));
        if (f.c1 == 0 && dot > 0.0) || (f.c0 == 0 && dot < 0.0) then Outward else NotOutward
  }

  function Count(samples: seq<Face>, coords: map<nat, Vec>, cells: map<nat, Cell>, v: Vote): nat {
    if samples == [] then 0
    else
      var n := |samples| - 1;
      Count(samples[..n], coords, cells, v) + if VoteOf(samples[n], coords, cells) == v then 1 else 0
  }

  function Judged(samples: seq<Face>, coords: map<nat, Vec>, cells: map<nat, Cell>): nat {
    Count(samples, coords, cells, Outward) + Count(samples, coords, cells, NotOutward)
  }

  function Fraction(samples: seq<Face>, coords: map<nat, Vec>, cells: map<nat, Cell>): Option<real> {
    if Judged(samples, coords, cells) == 0 then None
    else Some(Count(samples, coords, cells, Outward) as real / Judged(samples, coords, cells) as real)
  }

  /** The zone's winding is reversed when fewer than half of its judged faces point outward. */
  predicate Inverted(samples: seq<Face>, coords: map<nat, Vec>, cells: map<nat, Cell>) {
    var frac := Fraction(samples, coords, cells);
    frac.Some? && frac.value < 0.5
  }

  // ---- the loops --------------------------------------------------------------------------------

  method Corners(nodes: seq<nat>, coords: map<nat, Vec>) returns (pts: seq<Vec>)
    ensures pts == Points(nodes, coords)
  {
    pts := [];
    for i := 0 to |nodes|
      invariant pts + Points(nodes[i..], coords) == Points(nodes, coords)
    {
      assert nodes[i..][1..] == nodes[i + 1..];
      if nodes[i] in coords {
        pts := pts + [coords[nodes[i]]];
      }
    }
  }

  lemma GatherStep(faces: seq<Face>, coords: map<nat, Vec>, wanted: set<nat>, i: nat)
    requires i < |faces|
    ensures Cells(faces[..i + 1], coords, wanted)
         == map c | c in wanted :: Gathered(CellOf(faces[..i], coords, c), faces[i], coords, c)
  {
    assert faces[..i + 1][..i] == faces[..i];
  }

  method GatherGeometry(faces: seq<Face>, coords: map<nat, Vec>, wanted: set<nat>) returns (acc: map<nat, Cell>)
    requires Readable(faces, coords, wanted)
    ensures acc == Cells(faces, coords, wanted)
  {
    acc := map c | c in wanted :: Cell(ZERO, 0);
    for i := 0 to |faces|
      invariant acc == Cells(faces[..i], coords, wanted)
    {
      var f := faces[i];
      if f.c0 in acc || f.c1 in acc {
        AllPoints(f.nodes, coords);
        var pts := Corners(f.nodes, coords);
        var mean := MeanPoint(pts);
        if f.c0 in acc {
          acc := acc[f.c0 := Grown(acc[f.c0], mean)];
        }
        if f.c1 in acc {
          acc := acc[f.c1 := Grown(acc[f.c1], mean)];
        }
      }
      GatherStep(faces, coords, wanted, i);
    }
    assert faces[..|faces|] == faces;
  }

  method ZoneOrientation(samples: seq<Face>, coords: map<nat, Vec>, cells: map<nat, Cell>) returns (frac: Option<real>)
    ensures frac == Fraction(samples, coords, cells)
  {
    var out, tot := 0, 0;
    for i := 0 to |samples|
      invariant out == Count(samples[..i], coords, cells, Outward)
      invariant tot == Judged(samples[..i], coords, cells)
    {
      var f := samples[i];
      assert samples[..i + 1][..i] == samples[..i];
      if Owner(f) !in cells || cells[Owner(f)].count == 0 {
        continue;
      }
      var pts := Corners(f.nodes, coords);
      if |pts| < 3 {
        continue;
      }
      var centroid := MeanPoint(pts);
      var normal := WindingNormal(pts);
      var dot := Dot(normal, Sub(centroid, Centre(cells[Owner(f)])));
      if (f.c1 == 0 && dot > 0.0) || (f.c0 == 0 && dot < 0.0) {
        out := out + 1;
      }
      tot := tot + 1;
    }
    assert samples[..|samples|] == samples;
    frac := if tot == 0 then None else Some(out as real / tot as real);
  }

  // ---- reversing ----------------------------------------------------------------------------------

  lemma {:induction false} PointsOfAppend(a: seq<nat>, v: nat, coords: map<nat, Vec>)
    ensures Points(a + [v], coords) == Points(a, coords) + Points([v], coords)
  {
    if a == [] {
      assert a + [v] == [v];
    } else {
      assert (a + [v])[1..] == a[1..] + [v];
      PointsOfAppend(a[1..], v, coords);
    }
  }

  lemma {:induction false} PointsTurn(nodes: seq<nat>, coords: map<nat, Vec>)
    ensures Points(Rev(nodes), coords) == Rev(Points(nodes, coords))
  {
    if nodes != [] {
      var p := Points(nodes[1..], coords);
      PointsTurn(nodes[1..], coords);
      PointsOfAppend(Rev(nodes[1..]), nodes[0], coords);
      assert Points(Rev(nodes), coords) == Rev(p) + Points([nodes[0]], coords);
      if nodes[0] in coords {
        assert ([coords[nodes[0]]] + p)[1..] == p;
      } else {
        assert Points([nodes[0]], coords) == [];
        assert Points(nodes, coords) == p;
      }
    }
  }

  lemma {:induction false} LeanTurns(pts: seq<Vec>, centre: Vec)
    requires pts != []
    ensures Lean(Rev(pts), centre) == -Lean(pts, centre)
  {
    NormalTurns(pts);
    CentroidTurns(pts);
    DotTurns(Normal(pts), Sub(Centroid(pts), centre));
  }

  /** A sampled face the winding test can decide: one side open, and not seen edge-on. */
  predicate Decisive(f: Face, coords: map<nat, Vec>, cells: map<nat, Cell>) {
    && (f.c0 == 0) != (f.c1 == 0)
    && (VoteOf(f, coords, cells) != Skipped
        ==> Lean(Points(f.nodes, coords), Centre(cells[Owner(f)])) != 0.0)
  }

  /** Reversing a face never hides it from the test, and turns the verdict of a decisive face round. */
  lemma VoteTurns(f: Face, coords: map<nat, Vec>, cells: map<nat, Cell>)
    ensures (VoteOf(Turned(f), coords, cells) == Skipped) == (VoteOf(f, coords, cells) == Skipped)
    ensures Decisive(f, coords, cells) ==>
        (VoteOf(Turned(f), coords, cells) == Outward) == (VoteOf(f, coords, cells) == NotOutward)
  {
    PointsTurn(f.nodes, coords);
    if VoteOf(f, coords, cells) != Skipped {
      LeanTurns(Points(f.nodes, coords), Centre(cells[Owner(f)]));
    }
  }

  function TurnAll(faces: seq<Face>): (r: seq<Face>)
    ensures |r| == |faces|
    ensures forall i :: 0 <= i < |faces| ==> r[i] == Turned(faces[i])
  {
    seq(|faces|, i requires 0 <= i < |faces| => Turned(faces[i]))
  }

  lemma {:induction false} CountsTurn(samples: seq<Face>, coords: map<nat, Vec>, cells: map<nat, Cell>)
    ensures Judged(TurnAll(samples), coords, cells) == Judged(samples, coords, cells)
    ensures (forall f :: f in samples ==> Decisive(f, coords, cells))
      ==> Count(TurnAll(samples), coords, cells, Outward) == Count(samples, coords, cells, NotOutward)
  {
    if samples != [] {
      var n := |samples| - 1;
      CountsTurn(samples[..n], coords, cells);
      assert TurnAll(samples)[..n] == TurnAll(samples[..n]);
      VoteTurns(samples[n], coords, cells);
      assert samples[n] in samples;
    }
  }

  lemma Half(a: real, b: real)
    requires b > 0.0
    ensures (a / b < 0.5) == (2.0 * a < b)
  {
    var q := a / b;
    assert q * b == a;
    if q < 0.5 {
      assert (0.5 - q) * b > 0.0;
    } else {
      assert (q - 0.5) * b >= 0.0;
    }
  }

  lemma HalfOf(out: nat, tot: nat)
    requires tot > 0
    ensures (out as real / tot as real < 0.5) == (2 * out < tot)
  {
    Half(out as real, tot as real);
  }

  lemma {:induction false} InvertedMeans(samples: seq<Face>, coords: map<nat, Vec>, cells: map<nat, Cell>)
    ensures Inverted(samples, coords, cells)
        <==> 2 * Count(samples, coords, cells, Outward) < Judged(samples, coords, cells)
  {
    if Judged(samples, coords, cells) > 0 {
      HalfOf(Count(samples, coords, cells, Outward), Judged(samples, coords, cells));
    }
  }

  /** When the test decides every sampled face, a zone it calls inverted is not called inverted
      again once its faces are reversed. */
  lemma TurnedZoneIsUpright(samples: seq<Face>, coords: map<nat, Vec>, cells: map<nat, Cell>)
    requires forall f :: f in samples ==> Decisive(f, coords, cells)
    requires Inverted(samples, coords, cells)
    ensures !Inverted(TurnAll(samples), coords, cells)
  {
    CountsTurn(samples, coords, cells);
    InvertedMeans(samples, coords, cells);
    InvertedMeans(TurnAll(samples), coords, cells);
  }

  /** A judged face that would point outward the other way round. */
  predicate Inward(f: Face, coords: map<nat, Vec>, cells: map<nat, Cell>) {
    && VoteOf(f, coords, cells) != Skipped
    && var dot := Lean(Points(f.nodes, coords), Centre(cells[Owner(f)]));
       (f.c1 == 0 && dot < 0.0) || (f.c0 == 0 && dot > 0.0)
  }

  function Inwards(samples: seq<Face>, coords: map<nat, Vec>, cells: map<nat, Cell>): nat {
    if samples == [] then 0
    else
      var n := |samples| - 1;
      Inwards(samples[..n], coords, cells) + if Inward(samples[n], coords, cells) then 1 else 0
  }

  lemma TurnedOutward(f: Face, coords: map<nat, Vec>, cells: map<nat, Cell>)
    ensures VoteOf(Turned(f), coords, cells) == Outward <==> Inward(f, coords, cells)
  {
    PointsTurn(f.nodes, coords);
    if VoteOf(f, coords, cells) != Skipped {
      LeanTurns(Points(f.nodes, coords), Centre(cells[Owner(f)]));
    }
  }

  lemma {:induction false} OutwardsTurned(samples: seq<Face>, coords: map<nat, Vec>, cells: map<nat, Cell>)
    ensures Count(TurnAll(samples), coords, cells, Outward) == Inwards(samples, coords, cells)
  {
    if samples != [] {
      var n := |samples| - 1;
      OutwardsTurned(samples[..n], coords, cells);
      assert TurnAll(samples)[..n] == TurnAll(samples[..n]);
      TurnedOutward(samples[n], coords, cells);
    }
  }

  /** Neither the outward nor the inward faces are half of the judged ones. */
  predicate Undecided(samples: seq<Face>, coords: map<nat, Vec>, cells: map<nat, Cell>) {
    && 2 * Count(samples, coords, cells, Outward) < Judged(samples, coords, cells)
    && 2 * Inwards(samples, coords, cells) < Judged(samples, coords, cells)
  }

  /** A zone is called inverted both as it is and reversed exactly when the count decides for neither. */
  lemma InvertedBothWaysIff(samples: seq<Face>, coords: map<nat, Vec>, cells: map<nat, Cell>)
    ensures Inverted(samples, coords, cells) && Inverted(TurnAll(samples), coords, cells)
      <==> Undecided(samples, coords, cells)
  {
    CountsTurn(samples, coords, cells);
    OutwardsTurned(samples, coords, cells);
    InvertedMeans(samples, coords, cells);
    InvertedMeans(TurnAll(samples), coords, cells);
  }

  /** The hypothesis is needed: a zone whose judged faces all lie between two cells is inverted both
      ways round, and would be reversed by every run. */
  lemma {:induction false} InnerFacesNeverSettle(samples: seq<Face>, coords: map<nat, Vec>, cells: map<nat, Cell>)
    requires forall f :: f in samples ==> f.c0 != 0 && f.c1 != 0
    ensures Count(samples, coords, cells, Outward) == 0
    ensures Judged(samples, coords, cells) > 0
      ==> Inverted(samples, coords, cells) && Inverted(TurnAll(samples), coords, cells)
  {
    NoneOutward(samples, coords, cells);
    NoneOutward(TurnAll(samples), coords, cells);
    CountsTurn(samples, coords, cells);
    InvertedMeans(samples, coords, cells);
    InvertedMeans(TurnAll(samples), coords, cells);
  }

  lemma {:induction false} NoneOutward(samples: seq<Face>, coords: map<nat, Vec>, cells: map<nat, Cell>)
    requires forall f :: f in samples ==> f.c0 != 0 && f.c1 != 0
    ensures Count(samples, coords, cells, Outward) == 0
  {
    if samples != [] {
      NoneOutward(samples[..|samples| - 1], coords, cells);
      assert samples[|samples| - 1] in samples;
    }
  }

  // ---- the cells do not move --------------------------------------------------------------------

  /** Each face of `b` is the face of `a` in the same place, one way round or the other. */
  ghost predicate SameUpToTurning(a: seq<Face>, b: seq<Face>) {
    |a| == |b| && forall i :: 0 <= i < |a| ==> b[i] == a[i] || b[i] == Turned(a[i])
  }

  lemma {:induction false} CellsStay(a: seq<Face>, b: seq<Face>, coords: map<nat, Vec>, c: nat)
    requires SameUpToTurning(a, b)
    ensures CellOf(b, coords, c) == CellOf(a, coords, c)
  {
    if a != [] {
      var n := |a| - 1;
      CellsStay(a[..n], b[..n], coords, c);
      PointsTurn(a[n].nodes, coords);
      if Points(a[n].nodes, coords) != [] {
        CentroidTurns(Points(a[n].nodes, coords));
      }
    }
  }

  lemma {:induction false} OnlyOwnersMatter(samples: seq<Face>, coords: map<nat, Vec>, a: map<nat, Cell>,
                                            b: map<nat, Cell>, v: Vote)
    requires forall f :: f in samples ==> Owner(f) in a && Owner(f) in b && a[Owner(f)] == b[Owner(f)]
    ensures Count(samples, coords, a, v) == Count(samples, coords, b, v)
  {
    if samples != [] {
      OnlyOwnersMatter(samples[..|samples| - 1], coords, a, b, v);
      assert samples[|samples| - 1] in samples;
    }
  }
}
