// Zones: the even-odd test, and the bounding boxes in front of it (packages/spatial/src/zones.ts), over exact reals.
module Zones {
  import opened Wrappers
  import opened Polygons
  import opened Sorting

  datatype ZoneKind = Base | NoFly | Geofence

  datatype Zone = Zone(id: string, kind: ZoneKind, polygon: seq<Point>, minAltM: Option<real>, maxAltM: Option<real>)

  predicate ById(a: Zone, b: Zone) { LexLe(a.id, b.id) }

  // ---- the even-odd test ---------------------------------------------------------------------------------------------

  predicate Straddles(y: real, a: Point, b: Point) { (a.y > y) != (b.y > y) }

  // Where the line through a and b meets the horizontal at y.
  function Intercept(y: real, a: Point, b: Point): real
    requires Straddles(y, a, b)
  {
    ((b.x - a.x) * (y - a.y)) / (b.y - a.y) + a.x
  }

  // Whether the ray to the right of (x, y) crosses the edge, ends half open.
  predicate Crosses(x: real, y: real, a: Point, b: Point) { Straddles(y, a, b) && x < Intercept(y, a, b) }

  function Before(poly: seq<Point>, k: nat): Point
    requires k < |poly|
  {
    poly[if k == 0 then |poly| - 1 else k - 1]
  }

  function Crossings(x: real, y: real, poly: seq<Point>, k: nat): nat
    requires k <= |poly|
  {
    if k == 0 then 0
    else Crossings(x, y, poly, k - 1) + if Crosses(x, y, poly[k - 1], Before(poly, k - 1)) then 1 else 0
  }

  // Inside: an odd number of edges crossed.
  predicate Inside(x: real, y: real, poly: seq<Point>) { Crossings(x, y, poly, |poly|) % 2 == 1 }

  lemma InterceptIs(y: real, a: Point, b: Point)
    requires Straddles(y, a, b)
    ensures Intercept(y, a, b) == ((b.x - a.x) * (y - a.y)) / (b.y - a.y) + a.x
  {
  }

  lemma NoCrossingYet(x: real, y: real, poly: seq<Point>)
    ensures Crossings(x, y, poly, 0) == 0
  {
  }

  lemma NextParity(x: real, y: real, poly: seq<Point>, k: nat)
    requires k < |poly|
    ensures Crossings(x, y, poly, k + 1) % 2 == 1 <==>
      ((Crossings(x, y, poly, k) % 2 == 1) != Crosses(x, y, poly[k], Before(poly, k)))
  {
  }

  method PointInPolygon(x: real, y: real, poly: seq<Point>) returns (inside: bool)
    ensures inside == Inside(x, y, poly)
  {
    hide Crossings, Intercept;
    inside := false;
    assert Crossings(x, y, poly, 0) == 0 by { NoCrossingYet(x, y, poly); }
    var n := |poly|;
    var a, b := 0, n - 1;
    while a < n
      invariant 0 <= a <= n && b == (if a == 0 then n - 1 else a - 1)
      invariant inside == (Crossings(x, y, poly, a) % 2 == 1)
    {
      var pa, pb := poly[a], poly[b];
      assert pb == Before(poly, a);
      NextParity(x, y, poly, a);
      if (pa.y > y) != (pb.y > y) {
        var at := ((pb.x - pa.x) * (y - pa.y)) / (pb.y - pa.y) + pa.x;
        assert at == Intercept(y, pa, pb) by { InterceptIs(y, pa, pb); }
        if x < at { inside := !inside; }
      }
      b := a;
      a := a + 1;
    }
  }

  // ---- outside the box is outside the polygon ----------------------------------------------------------------------------

  datatype Box = Box(x0: real, y0: real, x1: real, y1: real)

  predicate InBox(x: real, y: real, b: Box) { b.x0 <= x <= b.x1 && b.y0 <= y <= b.y1 }

  ghost predicate Bounds(b: Box, poly: seq<Point>) { forall k :: 0 <= k < |poly| ==> InBox(poly[k].x, poly[k].y, b) }

  // An edge crosses a horizontal line between its ends.
  lemma InterceptBetween(y: real, a: Point, b: Point)
    requires Straddles(y, a, b)
    ensures Min(a.x, b.x) <= Intercept(y, a, b) <= Max(a.x, b.x)
  {
    var w, p, h := b.x - a.x, y - a.y, b.y - a.y;
    var t := UnitQuotient(p, h);
    Between(a.x, b.x, t);
    Quotient(w, p, h, t);
    assert Intercept(y, a, b) == (w * p) / h + a.x;
  }

  lemma Quotient(w: real, p: real, h: real, t: real)
    requires h != 0.0 && t * h == p
    ensures (w * p) / h == t * w
  {
    var z := (w * p) / h;
    assert z * h == w * p;
    assert (t * w) * h == w * (t * h);
    Cancel(z, t * w, h);
  }

  lemma UnitQuotient(p: real, h: real) returns (t: real)
    requires (h > 0.0 && 0.0 <= p <= h) || (h < 0.0 && h <= p <= 0.0)
    ensures t * h == p && 0.0 <= t <= 1.0
  {
    t := p / h;
  }

  // A closed outline crosses a horizontal line an even number of times.
  lemma {:induction false} CrossedLineParity(x: real, y: real, poly: seq<Point>, k: nat)
    requires 0 < k <= |poly|
    requires forall i :: 0 <= i < |poly| ==> (Crosses(x, y, poly[i], Before(poly, i)) <==> Straddles(y, poly[i], Before(poly, i)))
    ensures Crossings(x, y, poly, k) % 2 == 1 <==> Straddles(y, poly[k - 1], poly[|poly| - 1])
  {
    hide Crosses;
    assert Crosses(x, y, poly[k - 1], Before(poly, k - 1)) <==> Straddles(y, poly[k - 1], Before(poly, k - 1));
    NextParity(x, y, poly, k - 1);
    if k > 1 { CrossedLineParity(x, y, poly, k - 1); } else { NoCrossingYet(x, y, poly); }
    hide Crossings;
  }

  lemma {:induction false} NoCrossings(x: real, y: real, poly: seq<Point>, k: nat)
    requires k <= |poly|
    requires forall i :: 0 <= i < |poly| ==> !Crosses(x, y, poly[i], Before(poly, i))
    ensures Crossings(x, y, poly, k) == 0
  {
    hide Crosses;
    if k > 0 { NoCrossings(x, y, poly, k - 1); }
  }

  // The shortcut changes nothing: no point outside a box around the vertices is inside the polygon.
  lemma OutsideBoxIsOutside(x: real, y: real, poly: seq<Point>, b: Box)
    requires Bounds(b, poly) && !InBox(x, y, b)
    ensures !Inside(x, y, poly)
  {
    hide Crosses, Crossings;
    if poly == [] {
      NoCrossings(x, y, poly, 0);
    } else if x < b.x0 && b.y0 <= y <= b.y1 {
      forall i | 0 <= i < |poly|
        ensures Crosses(x, y, poly[i], Before(poly, i)) <==> Straddles(y, poly[i], Before(poly, i))
      {
        LeftOfEdge(x, y, poly[i], Before(poly, i));
      }
      CrossedLineParity(x, y, poly, |poly|);
    } else {
      forall i | 0 <= i < |poly| ensures !Crosses(x, y, poly[i], Before(poly, i)) {
        PastEdge(x, y, poly[i], Before(poly, i), b);
      }
      NoCrossings(x, y, poly, |poly|);
    }
  }

  lemma LeftOfEdge(x: real, y: real, a: Point, b: Point)
    requires x < a.x && x < b.x
    ensures Crosses(x, y, a, b) <==> Straddles(y, a, b)
  {
    hide Intercept;
    if Straddles(y, a, b) { InterceptBetween(y, a, b); }
  }

  lemma PastEdge(x: real, y: real, p: Point, q: Point, b: Box)
    requires InBox(p.x, p.y, b) && InBox(q.x, q.y, b)
    requires x > b.x1 || y < b.y0 || y > b.y1
    ensures !Crosses(x, y, p, q)
  {
    hide Intercept;
    if Straddles(y, p, q) { InterceptBetween(y, p, q); }
  }

  // What the test says of the rectangle shorthand: the half-open rectangle.
  function RectPolygon(x0: real, y0: real, x1: real, y1: real): seq<Point> {
    [Point(x0, y0), Point(x1, y0), Point(x1, y1), Point(x0, y1)]
  }

  lemma RectIsHalfOpen(x: real, y: real, x0: real, y0: real, x1: real, y1: real)
    requires x0 < x1 && y0 < y1
    ensures Inside(x, y, RectPolygon(x0, y0, x1, y1)) <==> x0 <= x < x1 && y0 <= y < y1
  {
    var r := RectPolygon(x0, y0, x1, y1);
    assert Crossings(x, y, r, 1) == if Crosses(x, y, r[0], r[3]) then 1 else 0;
    assert Crossings(x, y, r, 2) == Crossings(x, y, r, 1);
    assert Crossings(x, y, r, 3) == Crossings(x, y, r, 2) + if Crosses(x, y, r[2], r[1]) then 1 else 0;
    assert Crossings(x, y, r, 4) == Crossings(x, y, r, 3);
    UprightEdge(x, y, r[0], r[3]);
    UprightEdge(x, y, r[2], r[1]);
  }

  lemma UprightEdge(x: real, y: real, a: Point, b: Point)
    requires a.x == b.x
    ensures Crosses(x, y, a, b) <==> Straddles(y, a, b) && x < a.x
  {
    hide Intercept;
    if Straddles(y, a, b) { InterceptBetween(y, a, b); }
  }

  // ---- the zone set ------------------------------------------------------------------------------------------------------

  predicate InBand(z: real, zone: Zone) {
    (zone.minAltM.Some? ==> z >= zone.minAltM.value) && (zone.maxAltM.Some? ==> z <= zone.maxAltM.value)
  }

  datatype ZoneError = DuplicateId(id: string) | TooFewVertices(id: string)

  ghost predicate Acceptable(zones: seq<Zone>) {
    && (forall i :: 0 <= i < |zones| ==> |zones[i].polygon| >= 3)
    && (forall i, j :: 0 <= i < j < |zones| ==> zones[i].id != zones[j].id)
  }

  // The k-th zone is the first that cannot be taken, and what is wrong with it: its id, looked at before its vertices.
  ghost predicate Refused(zones: seq<Zone>, k: nat, e: ZoneError) {
    && k < |zones| && Acceptable(zones[..k])
    && if exists i :: 0 <= i < k && zones[i].id == zones[k].id then e == DuplicateId(zones[k].id)
       else |zones[k].polygon| < 3 && e == TooFewVertices(zones[k].id)
  }

  predicate Wanted(zone: Zone, x: real, y: real, kind: Option<ZoneKind>) {
    (kind.None? || zone.kind == kind.value) && Inside(x, y, zone.polygon)
  }

  // Of the first k zones, in their order, those that hold (x, y), of one kind when one is asked for.
  function Holding(zones: seq<Zone>, x: real, y: real, kind: Option<ZoneKind>, k: nat): seq<Zone>
    requires k <= |zones|
  {
    if k == 0 then []
    else Holding(zones, x, y, kind, k - 1) + if Wanted(zones[k - 1], x, y, kind) then [zones[k - 1]] else []
  }

  // There are geofences and (x, y) is inside none of them.
  ghost predicate OutsideAll(zones: seq<Zone>, x: real, y: real) {
    && (exists zone :: zone in zones && zone.kind == Geofence)
    && (forall zone :: zone in zones && zone.kind == Geofence ==> !Inside(x, y, zone.polygon))
  }

  class ZoneSet {
    const zones: seq<Zone>
    const bounds: array<real>

    function BoxOf(k: nat): Box
      requires 4 * k + 3 < bounds.Length
      reads bounds
    {
      Box(bounds[k * 4], bounds[k * 4 + 1], bounds[k * 4 + 2], bounds[k * 4 + 3])
    }

    ghost predicate Valid()
      reads bounds
    {
      && bounds.Length == 4 * |zones|
      && forall k :: 0 <= k < |zones| ==> Bounds(BoxOf(k), zones[k].polygon)
    }

    static method Make(zones: seq<Zone>) returns (r: Result<ZoneSet, ZoneError>)
      ensures r.Ok? <==> Acceptable(zones)
      ensures r.Err? ==> exists k :: Refused(zones, k, r.error)
      ensures r.Ok? ==> fresh(r.value) && fresh(r.value.bounds) && r.value.Valid() && r.value.zones == Sort(ById, zones)
    {
      var ids: set<string> := {};
      for k := 0 to |zones|
        invariant ids == set i | 0 <= i < k :: zones[i].id
        invariant Acceptable(zones[..k])
      {
        if zones[k].id in ids { assert Refused(zones, k, DuplicateId(zones[k].id)); return Err(DuplicateId(zones[k].id)); }
        ids := ids + {zones[k].id};
        if |zones[k].polygon| < 3 { assert Refused(zones, k, TooFewVertices(zones[k].id)); return Err(TooFewVertices(zones[k].id)); }
      }
      assert zones[..|zones|] == zones;
      var s := new ZoneSet(zones);
      return Ok(s);
    }

    constructor (zones: seq<Zone>)
      requires Acceptable(zones)
      ensures Valid() && this.zones == Sort(ById, zones) && fresh(bounds)
    {
      SortedZones(zones);
      var sorted := Sort(ById, zones);
      var b := new real[4 * |sorted|](_ => 0.0);
      this.zones := sorted;
      this.bounds := b;
      new;
      for k := 0 to |this.zones|
        invariant forall i :: 0 <= i < k ==> Bounds(BoxOf(i), this.zones[i].polygon)
      {
        assert this.zones[k] in sorted;
        var box := BoundsOf(this.zones[k].polygon);
        SetBox(k, box);
      }
    }

    method SetBox(k: nat, box: Box)
      requires 4 * k + 3 < bounds.Length
      modifies bounds
      ensures BoxOf(k) == box
      ensures forall i :: 0 <= i && i != k && 4 * i + 3 < bounds.Length ==> BoxOf(i) == old(BoxOf(i))
    {
      bounds[k * 4], bounds[k * 4 + 1], bounds[k * 4 + 2], bounds[k * 4 + 3] := box.x0, box.y0, box.x1, box.y1;
    }

    static method BoundsOf(poly: seq<Point>) returns (b: Box)
      requires poly != []
      ensures Bounds(b, poly)
      ensures forall c :: Bounds(c, poly) ==> c.x0 <= b.x0 && c.y0 <= b.y0 && b.x1 <= c.x1 && b.y1 <= c.y1
    {
      var x0, y0, x1, y1 := poly[0].x, poly[0].y, poly[0].x, poly[0].y;
      for k := 0 to |poly|
        invariant forall i :: 0 <= i < k ==> InBox(poly[i].x, poly[i].y, Box(x0, y0, x1, y1))
        invariant forall c :: Bounds(c, poly) ==> c.x0 <= x0 && c.y0 <= y0 && x1 <= c.x1 && y1 <= c.y1
      {
        x0, y0, x1, y1 := Min(x0, poly[k].x), Min(y0, poly[k].y), Max(x1, poly[k].x), Max(y1, poly[k].y);
      }
      b := Box(x0, y0, x1, y1);
    }

    method Contains(k: nat, x: real, y: real) returns (r: bool)
      requires Valid() && k < |zones|
      ensures r == Inside(x, y, zones[k].polygon)
    {
      if x < bounds[k * 4] || y < bounds[k * 4 + 1] || x > bounds[k * 4 + 2] || y > bounds[k * 4 + 3] {
        OutsideBoxIsOutside(x, y, zones[k].polygon, BoxOf(k));
        return false;
      }
      r := PointInPolygon(x, y, zones[k].polygon);
    }

    method ZonesAt(x: real, y: real, kind: Option<ZoneKind>) returns (found: seq<Zone>)
      requires Valid()
      ensures found == Holding(zones, x, y, kind, |zones|)
    {
      found := [];
      for k := 0 to |zones|
        invariant found == Holding(zones, x, y, kind, k)
      {
        if kind.None? || zones[k].kind == kind.value {
          var c := Contains(k, x, y);
          if c { found := found + [zones[k]]; }
        }
      }
    }

    method IsNoFly(x: real, y: real, z: real) returns (r: bool)
      requires Valid()
      ensures r <==> exists zone :: zone in zones && zone.kind == NoFly && InBand(z, zone) && Inside(x, y, zone.polygon)
    {
      for k := 0 to |zones|
        invariant forall i :: 0 <= i < k ==> !(zones[i].kind == NoFly && InBand(z, zones[i]) && Inside(x, y, zones[i].polygon))
      {
        if zones[k].kind != NoFly { continue; }
        if (zones[k].minAltM.Some? && z < zones[k].minAltM.value) || (zones[k].maxAltM.Some? && z > zones[k].maxAltM.value) {
          continue;
        }
        var c := Contains(k, x, y);
        if c { return true; }
      }
      return false;
    }

    method OutsideGeofence(x: real, y: real) returns (r: bool)
      requires Valid()
      ensures r <==> OutsideAll(zones, x, y)
    {
      var any := false;
      for k := 0 to |zones|
        invariant any <==> exists i :: 0 <= i < k && zones[i].kind == Geofence
        invariant forall i :: 0 <= i < k && zones[i].kind == Geofence ==> !Inside(x, y, zones[i].polygon)
      {
        if zones[k].kind != Geofence { continue; }
        any := true;
        var c := Contains(k, x, y);
        if c { return false; }
      }
      return any;
    }
  }

  lemma ByIdIsTotalOrder()
    ensures TotalOrder(ById)
  {
    LexIsTotalOrder();
    forall x: Zone, y: Zone ensures ById(x, y) || ById(y, x) { LexTotal(x.id, y.id); }
    forall x: Zone, y: Zone, z: Zone | ById(x, y) && ById(y, z) ensures ById(x, z) { LexTransitive(x.id, y.id, z.id); }
  }

  // Sorting keeps the zones: queries over the set are queries over the list it was made from.
  lemma SortedZones(zones: seq<Zone>)
    requires Acceptable(zones)
    ensures SortedBy(ById, Sort(ById, zones))
    ensures |Sort(ById, zones)| == |zones| && forall zone :: zone in Sort(ById, zones) <==> zone in zones
    ensures forall zone :: zone in Sort(ById, zones) ==> |zone.polygon| >= 3
  {
    ByIdIsTotalOrder();
    SortIsSorted(ById, zones);
    SortedSameElements(ById, zones);
  }
}
