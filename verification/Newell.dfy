/** Which way a polygon faces: the winding normal that tells an exported mesh's outward faces from
    its inward ones (devtools/validation/fluent_repair.py). Coordinates are reals. */
module Newell {

  datatype Vec = Vec(x: real, y: real, z: real)

  const ZERO := Vec(0.0, 0.0, 0.0)

  function Add(a: Vec, b: Vec): Vec { Vec(a.x + b.x, a.y + b.y, a.z + b.z) }

  function Sub(a: Vec, b: Vec): Vec { Vec(a.x - b.x, a.y - b.y, a.z - b.z) }

  function Neg(a: Vec): Vec { Vec(-a.x, -a.y, -a.z) }

  function Dot(a: Vec, b: Vec): real { a.x * b.x + a.y * b.y + a.z * b.z }

  function Cross(a: Vec, b: Vec): Vec {
    Vec(a.y * b.z - a.z * b.y, a.z * b.x - a.x * b.z, a.x * b.y - a.y * b.x)
  }

  /** What one edge adds to the normal. */
  function Edge(a: Vec, b: Vec): Vec {
    Vec((a.y - b.y) * (a.z + b.z), (a.z - b.z) * (a.x + b.x), (a.x - b.x) * (a.y + b.y))
  }

  function Along(p: seq<Vec>): Vec {
    if |p| < 2 then ZERO else Add(Along(p[..|p| - 1]), Edge(p[|p| - 2], p[|p| - 1]))
  }

  /** The winding normal: every edge in turn, and the one that closes the polygon. */
  function Normal(p: seq<Vec>): Vec
    requires p != []
  {
    Add(Along(p), Edge(p[|p| - 1], p[0]))
  }

  function Rev<T>(s: seq<T>): (r: seq<T>)
    ensures |r| == |s|
  {
    if s == [] then [] else Rev(s[1..]) + [s[0]]
  }

  function Sum(p: seq<Vec>): Vec {
    if p == [] then ZERO else Add(Sum(p[..|p| - 1]), p[|p| - 1])
  }

  function Over(a: Vec, n: nat): Vec
    requires n > 0
  {
    Vec(a.x / n as real, a.y / n as real, a.z / n as real)
  }

  function Centroid(p: seq<Vec>): Vec
    requires p != []
  {
    Over(Sum(p), |p|)
  }

  // ---- reversal -----------------------------------------------------------------------------------

  lemma {:induction false} RevOfAppend<T>(s: seq<T>, x: T)
    ensures Rev(s + [x]) == [x] + Rev(s)
  {
    if s == [] {
      assert Rev([x]) == Rev<T>([]) + [x];
    } else {
      assert (s + [x])[1..] == s[1..] + [x];
      RevOfAppend(s[1..], x);
    }
  }

  lemma {:induction false} RevTwice<T>(s: seq<T>)
    ensures Rev(Rev(s)) == s
  {
    if s != [] {
      RevTwice(s[1..]);
      RevOfAppend(Rev(s[1..]), s[0]);
    }
  }

  lemma {:induction false} RevEnds<T>(s: seq<T>)
    requires s != []
    ensures Rev(s)[|s| - 1] == s[0] && Rev(s)[0] == s[|s| - 1]
  {
    if |s| > 1 { RevEnds(s[1..]); }
  }

  lemma EdgeTurns(a: Vec, b: Vec)
    ensures Edge(b, a) == Neg(Edge(a, b))
  {
    assert (b.y - a.y) * (b.z + a.z) == -((a.y - b.y) * (a.z + b.z));
    assert (b.z - a.z) * (b.x + a.x) == -((a.z - b.z) * (a.x + b.x));
    assert (b.x - a.x) * (b.y + a.y) == -((a.x - b.x) * (a.y + b.y));
  }

  lemma {:induction false} AlongFromFront(p: seq<Vec>)
    requires |p| >= 2
    ensures Along(p) == Add(Edge(p[0], p[1]), Along(p[1..]))
  {
    if |p| > 2 {
      var front := p[..|p| - 1];
      AlongFromFront(front);
      assert front[1..] == p[1..][..|p| - 2];
    } else {
      assert Along(p[..1]) == ZERO && Along(p[1..]) == ZERO;
    }
  }

  lemma {:induction false} AlongTurns(p: seq<Vec>)
    ensures Along(Rev(p)) == Neg(Along(p))
  {
    if |p| >= 2 {
      var tail := Rev(p[1..]);
      AlongTurns(p[1..]);
      AlongFromFront(p);
      RevEnds(p[1..]);
      EdgeTurns(p[0], p[1]);
      assert Rev(p)[..|p| - 1] == tail;
      assert Rev(p)[|p| - 2] == p[1] && Rev(p)[|p| - 1] == p[0];
    }
  }

  /** A polygon walked the other way round faces the other way, whatever its length. */
  lemma {:induction false} NormalTurns(p: seq<Vec>)
    requires p != []
    ensures Normal(Rev(p)) == Neg(Normal(p))
  {
    AlongTurns(p);
    RevEnds(p);
    EdgeTurns(p[|p| - 1], p[0]);
  }

  lemma {:induction false} SumFromFront(p: seq<Vec>)
    requires p != []
    ensures Sum(p) == Add(p[0], Sum(p[1..]))
  {
    if |p| > 1 {
      SumFromFront(p[..|p| - 1]);
      assert p[..|p| - 1][1..] == p[1..][..|p| - 2];
    }
  }

  lemma {:induction false} SumTurns(p: seq<Vec>)
    ensures Sum(Rev(p)) == Sum(p)
  {
    if p != [] {
      SumTurns(p[1..]);
      SumFromFront(p);
      assert Rev(p)[..|p| - 1] == Rev(p[1..]);
    }
  }

  lemma {:induction false} CentroidTurns(p: seq<Vec>)
    requires p != []
    ensures Centroid(Rev(p)) == Centroid(p)
  {
    SumTurns(p);
  }

  lemma DotTurns(a: Vec, b: Vec)
    ensures Dot(Neg(a), b) == -Dot(a, b)
  {
    assert (-a.x) * b.x == -(a.x * b.x);
    assert (-a.y) * b.y == -(a.y * b.y);
    assert (-a.z) * b.z == -(a.z * b.z);
  }

  // ---- what the normal is ---------------------------------------------------------------------------

  /** Twice the area vector, read off as cross products of consecutive corners. */
  function Crosses(p: seq<Vec>): Vec {
    if |p| < 2 then ZERO else Add(Crosses(p[..|p| - 1]), Cross(p[|p| - 2], p[|p| - 1]))
  }

  function Slack(a: Vec): Vec { Vec(a.y * a.z, a.z * a.x, a.x * a.y) }

  lemma EdgeIsCross(a: Vec, b: Vec)
    ensures Edge(a, b) == Add(Cross(a, b), Sub(Slack(a), Slack(b)))
  {
    Expand(a.y, b.y, a.z, b.z);
    Expand(a.z, b.z, a.x, b.x);
    Expand(a.x, b.x, a.y, b.y);
  }

  lemma Expand(p: real, q: real, r: real, s: real)
    ensures (p - q) * (r + s) == p * r + p * s - q * r - q * s
  {
  }

  lemma {:induction false} AlongIsCrosses(p: seq<Vec>)
    requires p != []
    ensures Along(p) == Add(Crosses(p), Sub(Slack(p[0]), Slack(p[|p| - 1])))
  {
    if |p| > 1 {
      AlongIsCrosses(p[..|p| - 1]);
      EdgeIsCross(p[|p| - 2], p[|p| - 1]);
    }
  }

  lemma SlackCancels(along: Vec, crosses: Vec, edge: Vec, cross: Vec, first: Vec, last: Vec)
    requires along == Add(crosses, Sub(first, last)) && edge == Add(cross, Sub(last, first))
    ensures Add(along, edge) == Add(crosses, cross)
  {
  }

  /** Newell's sum is the area vector: the sum of the cross products of consecutive corners, closed. */
  lemma {:induction false} NormalIsAreaVector(p: seq<Vec>)
    requires p != []
    ensures Normal(p) == Add(Crosses(p), Cross(p[|p| - 1], p[0]))
  {
    AlongIsCrosses(p);
    EdgeIsCross(p[|p| - 1], p[0]);
    SlackCancels(Along(p), Crosses(p), Edge(p[|p| - 1], p[0]), Cross(p[|p| - 1], p[0]), Slack(p[0]),
        Slack(p[|p| - 1]));
  }

  // ---- the loop ---------------------------------------------------------------------------------

  function Next(pts: seq<Vec>, i: nat): (b: Vec)
    requires i < |pts|
    ensures b == if i + 1 < |pts| then pts[i + 1] else pts[0]
  {
    pts[(i + 1) % |pts|]
  }

  /** What the first `i` edges add up to. */
  function Partial(pts: seq<Vec>, i: nat): Vec
    requires i <= |pts| && pts != []
  {
    if i < |pts| then Along(pts[..i + 1]) else Normal(pts)
  }

  lemma PartialStep(pts: seq<Vec>, i: nat)
    requires i < |pts|
    ensures Partial(pts, i + 1) == Add(Partial(pts, i), Edge(pts[i], Next(pts, i)))
  {
    if i + 1 < |pts| {
      assert pts[..i + 2][..i + 1] == pts[..i + 1];
    } else {
      assert pts[..i + 1] == pts;
    }
  }

  method WindingNormal(pts: seq<Vec>) returns (n: Vec)
    requires pts != []
    ensures n == Normal(pts)
  {
    n := ZERO;
    for i := 0 to |pts|
      invariant n == Partial(pts, i)
    {
      PartialStep(pts, i);
      n := Add(n, Edge(pts[i], Next(pts, i)));
    }
  }

  method MeanPoint(pts: seq<Vec>) returns (m: Vec)
    requires pts != []
    ensures m == Centroid(pts)
  {
    var total := ZERO;
    for i := 0 to |pts|
      invariant total == Sum(pts[..i])
    {
      assert pts[..i + 1][..i] == pts[..i];
      total := Add(total, pts[i]);
    }
    assert pts[..|pts|] == pts;
    m := Over(total, |pts|);
  }
}
