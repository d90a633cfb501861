// Segment intersection and simple polygons (packages/scenarios/src/validate.ts), over exact reals.
module Polygons {
  import Reals

  datatype Point = Point(x: real, y: real)

  function Cross(a: Point, b: Point, c: Point): real {
    (b.x - a.x) * (c.y - a.y) - (b.y - a.y) * (c.x - a.x)
  }

  function Orient(a: Point, b: Point, c: Point): int {
    var v := Cross(a, b, c);
    if v > 0.0 then 1 else if v < 0.0 then -1 else 0
  }

  function Min(x: real, y: real): real { if x <= y then x else y }

  function Max(x: real, y: real): real { if x >= y then x else y }

  predicate OnSegment(a: Point, b: Point, c: Point) {
    Min(a.x, b.x) <= c.x <= Max(a.x, b.x) && Min(a.y, b.y) <= c.y <= Max(a.y, b.y)
  }

  predicate SegmentsIntersect(a: Point, b: Point, c: Point, d: Point) {
    var o1, o2, o3, o4 := Orient(a, b, c), Orient(a, b, d), Orient(c, d, a), Orient(c, d, b);
    if o1 != o2 && o3 != o4 then true
    else
      || (o1 == 0 && OnSegment(a, b, c))
      || (o2 == 0 && OnSegment(a, b, d))
      || (o3 == 0 && OnSegment(c, d, a))
      || (o4 == 0 && OnSegment(c, d, b))
  }

  // ---- what it means ---------------------------------------------------------------------------------------------------

  function At(a: Point, b: Point, t: real): Point { Point(a.x + t * (b.x - a.x), a.y + t * (b.y - a.y)) }

  ghost predicate Within(a: Point, b: Point, p: Point) { exists t: real :: 0.0 <= t <= 1.0 && At(a, b, t) == p }

  ghost predicate SharePoint(a: Point, b: Point, c: Point, d: Point) {
    exists p: Point :: Within(a, b, p) && Within(c, d, p)
  }

  // ---- arithmetic --------------------------------------------------------------------------------------------------------

  lemma Between(x: real, y: real, t: real)
    requires 0.0 <= t <= 1.0
    ensures Min(x, y) <= x + t * (y - x) <= Max(x, y)
  {
    var d := if x <= y then y - x else x - y;
    var p := Reals.Times(t, d);
    Reals.TimesGrows(0.0, t, d);
    Reals.TimesGrows(t, 1.0, d);
    assert 0.0 <= p <= d;
    if x <= y {
      assert x + t * (y - x) == x + p;
    } else {
      assert x + t * (y - x) == x - p;
    }
  }

  // The side of a point moves linearly along a segment.
  lemma CrossAlong(a: Point, b: Point, c: Point, d: Point, t: real)
    ensures Cross(a, b, At(c, d, t)) == Cross(a, b, c) + t * (Cross(a, b, d) - Cross(a, b, c))
  {
    var ux, uy, vx, vy := b.x - a.x, b.y - a.y, d.x - c.x, d.y - c.y;
    var p := At(c, d, t);
    calc {
      Cross(a, b, p);
      ux * (c.y + t * vy - a.y) - uy * (c.x + t * vx - a.x);
      (ux * (c.y - a.y) - uy * (c.x - a.x)) + t * (ux * vy - uy * vx);
      Cross(a, b, c) + t * (ux * vy - uy * vx);
    }
    assert ux * vy - uy * vx == Cross(a, b, d) - Cross(a, b, c);
  }

  lemma CrossOfOwn(a: Point, b: Point, t: real)
    ensures Cross(a, b, At(a, b, t)) == 0.0
  {
    var ux, uy := b.x - a.x, b.y - a.y;
    assert ux * (t * uy) == uy * (t * ux);
  }

  // A mixture of two positive numbers is positive.
  lemma Mixture(x: real, y: real, t: real)
    requires 0.0 <= t <= 1.0 && x > 0.0 && y > 0.0
    ensures x + t * (y - x) > 0.0
  {
    assert x + t * (y - x) == (1.0 - t) * x + t * y;
    if t > 0.0 {
      assert t * y > 0.0;
      assert (1.0 - t) * x >= 0.0;
    }
  }

  lemma SolveLine(ux: real, uy: real, wx: real, wy: real) returns (t: real)
    requires ux != 0.0 && ux * wy == uy * wx
    ensures t * ux == wx && t * uy == wy
  {
    t := wx / ux;
    assert t * ux == wx;
    assert ux * wy == uy * (t * ux) == ux * (t * uy);
    assert ux * (wy - t * uy) == 0.0;
  }

  // Where a collinear point lies on the line through two distinct points.
  lemma Locate(a: Point, b: Point, c: Point) returns (t: real)
    requires a != b && Cross(a, b, c) == 0.0
    ensures At(a, b, t) == c
    ensures OnSegment(a, b, c) <==> 0.0 <= t <= 1.0
  {
    var ux, uy := b.x - a.x, b.y - a.y;
    assert ux * (c.y - a.y) == uy * (c.x - a.x);
    if ux != 0.0 {
      t := SolveLine(ux, uy, c.x - a.x, c.y - a.y);
    } else {
      t := SolveLine(uy, ux, c.y - a.y, c.x - a.x);
    }
    assert At(a, b, t) == c;
    BoxMeansUnit(a, b, t);
  }

  lemma BoxMeansUnit(a: Point, b: Point, t: real)
    requires a != b
    ensures OnSegment(a, b, At(a, b, t)) <==> 0.0 <= t <= 1.0
  {
    hide Min, Max;
    var p := At(a, b, t);
    var dx, dy := t * (b.x - a.x), t * (b.y - a.y);
    assert p.x == a.x + dx && p.y == a.y + dy;
    if 0.0 <= t <= 1.0 {
      Between(a.x, b.x, t);
      Between(a.y, b.y, t);
    } else if a.x != b.x {
      Outside(a.x, b.x, t);
    } else {
      Outside(a.y, b.y, t);
    }
  }

  lemma Outside(x: real, y: real, t: real)
    requires x != y && !(0.0 <= t <= 1.0)
    ensures !(Min(x, y) <= x + t * (y - x) <= Max(x, y))
  {
    OutsideBy(x, y, t, y - x, t * (y - x));
  }

  lemma OutsideBy(x: real, y: real, t: real, u: real, p: real)
    requires u == y - x != 0.0 && p == t * u && !(0.0 <= t <= 1.0)
    ensures !(Min(x, y) <= x + p <= Max(x, y))
  {
    if t < 0.0 {
      Signs(t, u);
    } else {
      Signs(1.0 - t, u);
      assert (1.0 - t) * u == u - p;
    }
  }

  // A negative factor turns the sign of the other.
  lemma Signs(t: real, u: real)
    requires t < 0.0
    ensures u > 0.0 ==> t * u < 0.0
    ensures u < 0.0 ==> t * u > 0.0
  {
  }

  // ---- true means they meet ------------------------------------------------------------------------------------------------

  lemma WithinBy(a: Point, b: Point, t: real)
    requires 0.0 <= t <= 1.0
    ensures Within(a, b, At(a, b, t))
  {
  }

  lemma EndWithin(a: Point, b: Point)
    ensures Within(a, b, a) && Within(a, b, b)
  {
    assert At(a, b, 0.0) == a && At(a, b, 1.0) == b;
  }

  lemma CollinearInBox(a: Point, b: Point, c: Point)
    requires Cross(a, b, c) == 0.0 && OnSegment(a, b, c)
    ensures Within(a, b, c)
  {
    if a == b {
      EndWithin(a, b);
    } else {
      var t := Locate(a, b, c);
      WithinBy(a, b, t);
    }
  }

  lemma UnitRatio(x: real, y: real) returns (t: real)
    requires x != y && !(x > 0.0 && y > 0.0) && !(x < 0.0 && y < 0.0)
    ensures 0.0 <= t <= 1.0 && t * (x - y) == x
  {
    t := x / (x - y);
    if x - y > 0.0 { assert x >= 0.0 && y <= 0.0; } else { assert x <= 0.0 && y >= 0.0; }
  }

  // For three plane vectors: (u x v) w + (v x w) u + (w x u) v = 0.
  lemma PlaneIdentity(ux: real, uy: real, vx: real, vy: real, wx: real, wy: real)
    ensures (ux * vy - uy * vx) * wx + (vx * wy - vy * wx) * ux + (wx * uy - wy * ux) * vx == 0.0
    ensures (ux * vy - uy * vx) * wy + (vx * wy - vy * wx) * uy + (wx * uy - wy * ux) * vy == 0.0
  {
  }

  lemma ProperCrossing(a: Point, b: Point, c: Point, d: Point)
    requires Orient(a, b, c) != Orient(a, b, d) && Orient(c, d, a) != Orient(c, d, b)
    ensures SharePoint(a, b, c, d)
  {
    CrossDifferences(a, b, c, d);
    hide Cross, At;
    var s := UnitRatio(Cross(c, d, a), Cross(c, d, b));
    var t := UnitRatio(Cross(a, b, c), Cross(a, b, d));
    CrossingPoint(a, b, c, d, s, t);
    WithinBy(a, b, s);
    WithinBy(c, d, t);
  }

  lemma CrossDifferences(a: Point, b: Point, c: Point, d: Point)
    ensures Cross(c, d, a) - Cross(c, d, b) == (b.x - a.x) * (d.y - c.y) - (b.y - a.y) * (d.x - c.x)
    ensures Cross(a, b, c) - Cross(a, b, d) == -((b.x - a.x) * (d.y - c.y) - (b.y - a.y) * (d.x - c.x))
  {
  }

  lemma CrossingPoint(a: Point, b: Point, c: Point, d: Point, s: real, t: real)
    requires Cross(c, d, a) != Cross(c, d, b)
    requires s * (Cross(c, d, a) - Cross(c, d, b)) == Cross(c, d, a)
    requires t * (Cross(a, b, c) - Cross(a, b, d)) == Cross(a, b, c)
    ensures At(a, b, s) == At(c, d, t)
  {
    CrossDifferences(a, b, c, d);
    CrossesAre(a, b, c, d);
    hide Cross, At;
    var D, e := Cross(c, d, a) - Cross(c, d, b), Cross(a, b, c) - Cross(a, b, d);
    Opposite(t, D, e);
    Meet(b.x - a.x, b.y - a.y, d.x - c.x, d.y - c.y, a.x - c.x, a.y - c.y, D, Cross(c, d, a), Cross(a, b, c), s, t);
    AtBoth(a, b, c, d, s, t);
  }

  lemma CrossesAre(a: Point, b: Point, c: Point, d: Point)
    ensures Cross(c, d, a) == (d.x - c.x) * (a.y - c.y) - (d.y - c.y) * (a.x - c.x)
    ensures Cross(a, b, c) == (a.x - c.x) * (b.y - a.y) - (a.y - c.y) * (b.x - a.x)
  {
  }

  lemma Opposite(t: real, x: real, y: real)
    requires y == -x
    ensures t * y == -(t * x)
  {
  }

  lemma AtBoth(a: Point, b: Point, c: Point, d: Point, s: real, t: real)
    requires (a.x - c.x) + s * (b.x - a.x) - t * (d.x - c.x) == 0.0
    requires (a.y - c.y) + s * (b.y - a.y) - t * (d.y - c.y) == 0.0
    ensures At(a, b, s) == At(c, d, t)
  {
    AtIs(a, b, s, s * (b.x - a.x), s * (b.y - a.y));
    AtIs(c, d, t, t * (d.x - c.x), t * (d.y - c.y));
    hide At;
    Balance(a.x, c.x, s * (b.x - a.x), t * (d.x - c.x));
    Balance(a.y, c.y, s * (b.y - a.y), t * (d.y - c.y));
  }

  lemma AtIs(a: Point, b: Point, t: real, m: real, n: real)
    requires m == t * (b.x - a.x) && n == t * (b.y - a.y)
    ensures At(a, b, t) == Point(a.x + m, a.y + n)
  {
  }

  lemma Balance(p: real, q: real, m: real, n: real)
    requires (p - q) + m - n == 0.0
    ensures p + m == q + n
  {
  }

  // The same in plane vectors: u and v along the segments, w from the start of one to the start of the other.
  lemma Meet(ux: real, uy: real, vx: real, vy: real, wx: real, wy: real, D: real, g: real, h: real, s: real, t: real)
    requires D == ux * vy - uy * vx && g == vx * wy - vy * wx && h == wx * uy - wy * ux
    requires D != 0.0 && s * D == g && t * D == -h
    ensures wx + s * ux - t * vx == 0.0 && wy + s * uy - t * vy == 0.0
  {
    PlaneIdentity(ux, uy, vx, vy, wx, wy);
    SolveFor(D, wx, s, ux, t, vx, g, h);
    SolveFor(D, wy, s, uy, t, vy, g, h);
  }

  lemma SolveFor(D: real, w: real, s: real, u: real, t: real, v: real, g: real, h: real)
    requires D != 0.0 && s * D == g && t * D == -h && D * w + g * u + h * v == 0.0
    ensures w + s * u - t * v == 0.0
  {
    assert D * (w + s * u - t * v) == D * w + (s * D) * u - (t * D) * v;
  }

  // ---- they meet only when it says so ----------------------------------------------------------------------------------------

  // A shared point of segments with c and d on one side of ab (or both on its line) is found by one of the box tests.
  lemma SharedOnOneSide(a: Point, b: Point, c: Point, d: Point, s: real, t: real)
    requires 0.0 <= s <= 1.0 && 0.0 <= t <= 1.0 && At(a, b, s) == At(c, d, t)
    requires Orient(a, b, c) == Orient(a, b, d)
    ensures
      || (Orient(a, b, c) == 0 && OnSegment(a, b, c))
      || (Orient(a, b, d) == 0 && OnSegment(a, b, d))
      || (Orient(c, d, a) == 0 && OnSegment(c, d, a))
  {
    var f, f' := Cross(a, b, c), Cross(a, b, d);
    CrossAlong(a, b, c, d, t);
    CrossOfOwn(a, b, s);
    hide Cross;
    assert f + t * (f' - f) == 0.0;
    if f > 0.0 { Mixture(f, f', t); }
    if f < 0.0 { Mixture(-f, -f', t); }
    assert f == f' == 0.0;
    if a == b {
      assert At(a, b, s) == a;
      CrossOfOwn(c, d, t);
      Between(c.x, d.x, t);
      Between(c.y, d.y, t);
    } else {
      SharedOnLine(a, b, c, d, s, t);
    }
  }

  lemma SharedOnLine(a: Point, b: Point, c: Point, d: Point, s: real, t: real)
    requires 0.0 <= s <= 1.0 && 0.0 <= t <= 1.0 && At(a, b, s) == At(c, d, t)
    requires a != b && Cross(a, b, c) == Cross(a, b, d) == 0.0
    ensures OnSegment(a, b, c) || OnSegment(a, b, d) || (Cross(c, d, a) == 0.0 && OnSegment(c, d, a))
  {
    var g := Locate(a, b, c);
    var h := Locate(a, b, d);
    if !OnSegment(a, b, c) && !OnSegment(a, b, d) {
      SameParameter(a, b, s, g, h, t);
      Between(g, h, t);
      assert (g <= 0.0 <= h) || (h <= 0.0 <= g);
      StartBetween(a, b, g, h);
    }
  }

  // On the line from a to b, a itself lies between any two points around it.
  lemma StartBetween(a: Point, b: Point, g: real, h: real)
    requires (g <= 0.0 <= h) || (h <= 0.0 <= g)
    ensures Cross(At(a, b, g), At(a, b, h), a) == 0.0 && OnSegment(At(a, b, g), At(a, b, h), a)
  {
    StartOnLine(a, b, g, h);
    hide Cross;
    var p, q := At(a, b, g), At(a, b, h);
    var ux, uy := b.x - a.x, b.y - a.y;
    assert p.x == a.x + g * ux && q.x == a.x + h * ux && p.y == a.y + g * uy && q.y == a.y + h * uy;
    SpanHolds(a.x, ux, g, h);
    SpanHolds(a.y, uy, g, h);
  }

  lemma StartOnLine(a: Point, b: Point, g: real, h: real)
    ensures Cross(At(a, b, g), At(a, b, h), a) == 0.0
  {
    var ux, uy := b.x - a.x, b.y - a.y;
    assert (h * ux - g * ux) * (g * uy) == (h * uy - g * uy) * (g * ux);
  }

  lemma SameParameter(a: Point, b: Point, s: real, g: real, h: real, t: real)
    requires a != b
    requires At(a, b, s) == At(At(a, b, g), At(a, b, h), t)
    ensures s == g + t * (h - g)
  {
    var ux, uy := b.x - a.x, b.y - a.y;
    var p, q := At(a, b, g), At(a, b, h);
    AtIs(a, b, s, s * ux, s * uy);
    AtIs(a, b, g, g * ux, g * uy);
    AtIs(a, b, h, h * ux, h * uy);
    AtIs(p, q, t, t * (q.x - p.x), t * (q.y - p.y));
    hide At;
    SameOnAxis(a.x, ux, s, g, h, t, p.x, q.x);
    SameOnAxis(a.y, uy, s, g, h, t, p.y, q.y);
    Cancel(s, g + t * (h - g), ux);
    Cancel(s, g + t * (h - g), uy);
  }

  lemma SameOnAxis(v: real, u: real, s: real, g: real, h: real, t: real, p: real, q: real)
    requires p == v + g * u && q == v + h * u && v + s * u == p + t * (q - p)
    ensures s * u == (g + t * (h - g)) * u
  {
    Affine(g, h, t, u, q - p);
  }

  lemma Affine(g: real, h: real, t: real, u: real, d: real)
    requires d == h * u - g * u
    ensures g * u + t * d == (g + t * (h - g)) * u
  {
    var x := t * (h - g);
    assert d == (h - g) * u;
    assert t * d == x * u;
  }

  lemma Cancel(x: real, y: real, u: real)
    requires x * u == y * u
    ensures u == 0.0 || x == y
  {
    assert (x - y) * u == 0.0;
  }

  // On the line x + k u, the start lies between two points around it.
  lemma SpanHolds(x: real, u: real, g: real, h: real)
    requires (g <= 0.0 <= h) || (h <= 0.0 <= g)
    ensures Min(x + g * u, x + h * u) <= x <= Max(x + g * u, x + h * u)
  {
    if u >= 0.0 {
      if g <= 0.0 { assert g * u <= 0.0; } else { assert g * u >= 0.0; }
      if h <= 0.0 { assert h * u <= 0.0; } else { assert h * u >= 0.0; }
    } else {
      if g <= 0.0 { assert g * u >= 0.0; } else { assert g * u <= 0.0; }
      if h <= 0.0 { assert h * u >= 0.0; } else { assert h * u <= 0.0; }
    }
  }

  // The test is true exactly when the two closed segments have a point in common, degenerate segments included.
  lemma IntersectMeansShare(a: Point, b: Point, c: Point, d: Point)
    ensures SegmentsIntersect(a, b, c, d) <==> SharePoint(a, b, c, d)
  {
    EndWithin(a, b);
    EndWithin(c, d);
    var o1, o2, o3, o4 := Orient(a, b, c), Orient(a, b, d), Orient(c, d, a), Orient(c, d, b);
    if SegmentsIntersect(a, b, c, d) {
      if o1 != o2 && o3 != o4 { ProperCrossing(a, b, c, d); }
      else if o1 == 0 && OnSegment(a, b, c) { CollinearInBox(a, b, c); }
      else if o2 == 0 && OnSegment(a, b, d) { CollinearInBox(a, b, d); }
      else if o3 == 0 && OnSegment(c, d, a) { CollinearInBox(c, d, a); }
      else { CollinearInBox(c, d, b); }
    }
    if SharePoint(a, b, c, d) {
      var p: Point :| Within(a, b, p) && Within(c, d, p);
      var s: real :| 0.0 <= s <= 1.0 && At(a, b, s) == p;
      var t: real :| 0.0 <= t <= 1.0 && At(c, d, t) == p;
      if o1 == o2 { SharedOnOneSide(a, b, c, d, s, t); }
      else if o3 == o4 { SharedOnOneSide(c, d, a, b, t, s); }
    }
  }

  // ---- simple polygons ---------------------------------------------------------------------------------------------------

  function Next(k: nat, n: nat): nat
    requires k < n
  {
    if k + 1 == n then 0 else k + 1
  }

  lemma NextIsMod(k: nat, n: nat)
    requires k < n
    ensures (k + 1) % n == Next(k, n)
  {
  }

  function Edge(poly: seq<Point>, k: nat): (Point, Point)
    requires k < |poly|
  {
    (poly[k], poly[Next(k, |poly|)])
  }

  ghost predicate Touch(e: (Point, Point), f: (Point, Point)) { SharePoint(e.0, e.1, f.0, f.1) }

  // Twice the signed area, summed over the edges from `k` on.
  function Area2From(poly: seq<Point>, k: nat): real
    requires k <= |poly|
    decreases |poly| - k
  {
    if k == |poly| then 0.0
    else var e := Edge(poly, k); (e.0.x * e.1.y - e.1.x * e.0.y) + Area2From(poly, k + 1)
  }

  predicate Neighbours(a: nat, b: nat, n: nat)
    requires a < n && b < n
  {
    Next(a, n) == b || Next(b, n) == a
  }

  ghost predicate Apart(poly: seq<Point>, a: nat, b: nat)
    requires a < |poly| && b < |poly|
  {
    a == b || Neighbours(a, b, |poly|) || !Touch(Edge(poly, a), Edge(poly, b))
  }

  // Non-zero area, no two edges that are not neighbours have a point in common, no vertex is repeated by the next one.
  ghost predicate Simple(poly: seq<Point>) {
    && |poly| >= 3
    && Area2From(poly, 0) != 0.0
    && (forall a, b :: 0 <= a < |poly| && 0 <= b < |poly| ==> Apart(poly, a, b))
    && (forall k :: 0 <= k < |poly| ==> Edge(poly, k).0 != Edge(poly, k).1)
  }

  method IsSimplePolygon(poly: seq<Point>) returns (r: bool)
    ensures r <==> Simple(poly)
  {
    hide Apart, Area2From;
    if |poly| < 3 { return false; }
    var area2, edges := EdgesOf(poly);
    if area2 == 0.0 { return false; }
    r := EdgesApart(poly, edges);
    if !r { return; }
    r := NoneRepeats(poly);
  }

  method EdgesOf(poly: seq<Point>) returns (area2: real, edges: seq<(Point, Point)>)
    ensures area2 == Area2From(poly, 0)
    ensures |edges| == |poly| && forall i :: 0 <= i < |poly| ==> edges[i] == Edge(poly, i)
  {
    var n := |poly|;
    area2, edges := 0.0, [];
    for k := 0 to n
      invariant |edges| == k && forall i :: 0 <= i < k ==> edges[i] == Edge(poly, i)
      invariant area2 + Area2From(poly, k) == Area2From(poly, 0)
    {
      NextIsMod(k, n);
      var a, b := poly[k], poly[(k + 1) % n];
      area2 := area2 + (a.x * b.y - b.x * a.y);
      edges := edges + [(a, b)];
    }
  }

  method EdgesApart(poly: seq<Point>, edges: seq<(Point, Point)>) returns (r: bool)
    requires |poly| >= 3 && |edges| == |poly| && forall i :: 0 <= i < |poly| ==> edges[i] == Edge(poly, i)
    ensures r <==> forall a, b :: 0 <= a < |poly| && 0 <= b < |poly| ==> Apart(poly, a, b)
  {
    hide Apart, SegmentsIntersect;
    var n := |poly|;
    for a := 0 to n
      invariant forall i, j :: 0 <= i < a && 0 <= j < n ==> Apart(poly, i, j) && Apart(poly, j, i)
    {
      SelfApart(poly, a);
      for b := a + 1 to n
        invariant forall j :: 0 <= j < b ==> Apart(poly, a, j) && Apart(poly, j, a)
      {
        PairApart(poly, a, b);
        var adjacent := b == a + 1 || (a == 0 && b == n - 1);
        if !adjacent && SegmentsIntersect(edges[a].0, edges[a].1, edges[b].0, edges[b].1) { return false; }
      }
    }
    return true;
  }

  lemma SelfApart(poly: seq<Point>, a: nat)
    requires a < |poly|
    ensures Apart(poly, a, a)
  {
  }

  // Two edges are apart when they are neighbours, or when the segment test finds no common point.
  lemma PairApart(poly: seq<Point>, a: nat, b: nat)
    requires a < b < |poly| && |poly| >= 3
    ensures var e, f := Edge(poly, a), Edge(poly, b);
      Apart(poly, a, b) <==> (b == a + 1 || (a == 0 && b == |poly| - 1)) || !SegmentsIntersect(e.0, e.1, f.0, f.1)
    ensures Apart(poly, b, a) <==> Apart(poly, a, b)
  {
    hide SharePoint, SegmentsIntersect, Neighbours, Touch, Edge;
    EdgesTouch(Edge(poly, a), Edge(poly, b));
    TouchBothWays(Edge(poly, a), Edge(poly, b));
    AdjacentMeansNeighbours(a, b, |poly|);
  }

  lemma TouchBothWays(e: (Point, Point), f: (Point, Point))
    ensures Touch(e, f) <==> Touch(f, e)
  {
    hide Within;
  }

  method NoneRepeats(poly: seq<Point>) returns (r: bool)
    ensures r <==> forall k :: 0 <= k < |poly| ==> Edge(poly, k).0 != Edge(poly, k).1
  {
    var n := |poly|;
    for k := 0 to n
      invariant forall i :: 0 <= i < k ==> Edge(poly, i).0 != Edge(poly, i).1
    {
      NextIsMod(k, n);
      if poly[k] == poly[(k + 1) % n] {
        assert Edge(poly, k).0 == Edge(poly, k).1;
        return false;
      }
    }
    return true;
  }

  lemma EdgesTouch(e: (Point, Point), f: (Point, Point))
    ensures SegmentsIntersect(e.0, e.1, f.0, f.1) <==> Touch(e, f)
  {
    IntersectMeansShare(e.0, e.1, f.0, f.1);
  }

  lemma AdjacentMeansNeighbours(a: nat, b: nat, n: nat)
    requires a < b < n && n >= 3
    ensures b == a + 1 || (a == 0 && b == n - 1) <==> Neighbours(a, b, n)
    ensures Neighbours(b, a, n) <==> Neighbours(a, b, n)
  {
  }

  // ---- turning the vertex list -----------------------------------------------------------------------------------------------

  function Turn(poly: seq<Point>): (r: seq<Point>) { if poly == [] then [] else poly[1..] + [poly[0]] }

  function Turned(poly: seq<Point>, k: nat): seq<Point>
    decreases k
  {
    if k == 0 then poly else Turned(Turn(poly), k - 1)
  }

  lemma TurnEdge(poly: seq<Point>, k: nat)
    requires k < |poly|
    ensures |Turn(poly)| == |poly| && Edge(Turn(poly), k) == Edge(poly, Next(k, |poly|))
  {
  }

  lemma {:induction false} TurnArea(poly: seq<Point>, k: nat)
    requires k < |poly|
    ensures |Turn(poly)| == |poly|
    ensures var e := Edge(poly, 0);
      Area2From(Turn(poly), k) == Area2From(poly, k + 1) + (e.0.x * e.1.y - e.1.x * e.0.y)
    decreases |poly| - k
  {
    TurnEdge(poly, k);
    if k + 1 < |poly| {
      TurnArea(poly, k + 1);
    } else {
      assert Area2From(Turn(poly), k + 1) == 0.0;
    }
  }

  lemma TurnKeepsApart(poly: seq<Point>, a: nat, b: nat)
    requires a < |poly| && b < |poly|
    ensures |Turn(poly)| == |poly|
    ensures Apart(Turn(poly), a, b) <==> Apart(poly, Next(a, |poly|), Next(b, |poly|))
  {
    TurnEdge(poly, a);
    TurnEdge(poly, b);
  }

  lemma TurnOfSimple(poly: seq<Point>)
    requires Simple(poly)
    ensures Simple(Turn(poly))
  {
    hide Apart;
    var n := |poly|;
    TurnArea(poly, 0);
    forall a, b | 0 <= a < n && 0 <= b < n ensures Apart(Turn(poly), a, b) { TurnKeepsApart(poly, a, b); }
    forall k | 0 <= k < n ensures Edge(Turn(poly), k).0 != Edge(Turn(poly), k).1 { TurnEdge(poly, k); }
  }

  lemma SimpleOfTurn(poly: seq<Point>)
    requires Simple(Turn(poly))
    ensures Simple(poly)
  {
    hide Apart;
    var n := |poly|;
    TurnArea(poly, 0);
    forall a, b | 0 <= a < n && 0 <= b < n ensures Apart(poly, a, b) {
      TurnKeepsApart(poly, if a == 0 then n - 1 else a - 1, if b == 0 then n - 1 else b - 1);
    }
    forall k | 0 <= k < n ensures Edge(poly, k).0 != Edge(poly, k).1 {
      TurnEdge(poly, if k == 0 then n - 1 else k - 1);
    }
  }

  lemma TurnKeepsSimple(poly: seq<Point>)
    ensures Simple(Turn(poly)) <==> Simple(poly)
  {
    if Simple(poly) { TurnOfSimple(poly); }
    if Simple(Turn(poly)) { SimpleOfTurn(poly); }
  }

  // Which vertex the outline starts at makes no difference.
  lemma {:induction false} StartMakesNoDifference(poly: seq<Point>, k: nat)
    ensures Simple(Turned(poly, k)) <==> Simple(poly)
    decreases k
  {
    if k > 0 {
      TurnKeepsSimple(poly);
      StartMakesNoDifference(Turn(poly), k - 1);
    }
  }
}
