// The grid raycast (packages/spatial/src/raycast.ts), Amanatides-Woo traversal, over exact reals.
module Raycast {
  import opened Wrappers
  import opened Reals

  datatype RayHit = RayHit(hit: bool, distanceM: real, i: int, j: int)

  // ---- one coordinate ----------------------------------------------------------------------------------------------------

  // The grid line before the k-th stretch of width `res`.
  function Line(res: real, k: int): real { k as real * res }

  // Where a coordinate that starts at v and moves at d per metre is after s metres.
  function Pos(v: real, d: real, s: real): real { v + s * d }

  predicate Inner(v: real, res: real, k: int) { Line(res, k) < v < Line(res, k + 1) }

  predicate Closed(v: real, res: real, k: int) { Line(res, k) <= v <= Line(res, k + 1) }

  lemma Scaled(x: real, y: real, d: real)
    requires x <= y
    ensures d >= 0.0 ==> x * d <= y * d
    ensures d <= 0.0 ==> y * d <= x * d
  {
    if d >= 0.0 { assert (y - x) * d >= 0.0; } else { assert (y - x) * d <= 0.0; }
  }

  lemma ScaledStrict(x: real, y: real, d: real)
    requires x < y && d > 0.0
    ensures x * d < y * d
  {
    assert (y - x) * d > 0.0;
  }

  lemma LinesInOrder(res: real, k: int, m: int)
    requires res > 0.0 && k <= m
    ensures Line(res, k) <= Line(res, m)
    ensures Line(res, k + 1) == Line(res, k) + res
  {
    Scaled(k as real, m as real, res);
    assert (k + 1) as real * res == k as real * res + res;
  }

  lemma StretchesApart(v: real, res: real, k: int, m: int)
    requires res > 0.0 && Closed(v, res, k) && Inner(v, res, m)
    ensures k == m
  {
    hide Line;
    if k < m { LinesInOrder(res, k + 1, m); }
    if k > m { LinesInOrder(res, m + 1, k); }
  }

  lemma Moves(v: real, d: real, s: real, t: real)
    requires s <= t
    ensures d >= 0.0 ==> Pos(v, d, s) <= Pos(v, d, t)
    ensures d <= 0.0 ==> Pos(v, d, t) <= Pos(v, d, s)
  {
    Scaled(s, t, d);
  }

  // One coordinate of the walk: where it starts, how it moves, the stretch it is in and when it leaves it (None: never).
  datatype Axis = Axis(res: real, v0: real, d: real, k: int, tMax: Option<real>)

  function Step(d: real): int { if d > 0.0 then 1 else if d < 0.0 then -1 else 0 }

  // The grid line the coordinate leaves its stretch by.
  function Border(a: Axis): real { if a.d > 0.0 then Line(a.res, a.k + 1) else Line(a.res, a.k) }

  ghost predicate AxisInv(a: Axis, tIn: real) {
    && a.res > 0.0
    && (a.tMax.None? <==> a.d == 0.0)
    && (a.tMax.Some? ==> tIn <= a.tMax.value && Pos(a.v0, a.d, a.tMax.value) == Border(a))
    && Closed(Pos(a.v0, a.d, tIn), a.res, a.k)
  }

  // Until it leaves, the coordinate stays on the closure of its stretch.
  lemma StaysClosed(a: Axis, tIn: real, s: real)
    requires AxisInv(a, tIn) && tIn <= s && (a.tMax.Some? ==> s <= a.tMax.value)
    ensures Closed(Pos(a.v0, a.d, s), a.res, a.k)
    ensures AxisInv(a, s)
  {
    hide Line, Pos;
    Moves(a.v0, a.d, tIn, s);
    if a.tMax.Some? { Moves(a.v0, a.d, s, a.tMax.value); }
  }

  function Stepped(a: Axis, delta: real): Axis
    requires a.tMax.Some?
  {
    a.(k := a.k + Step(a.d), tMax := Some(a.tMax.value + delta))
  }

  function Abs(x: real): real { if x >= 0.0 then x else -x }

  function Delta(res: real, d: real): real
    requires d != 0.0
  {
    res / Abs(d)
  }

  lemma DeltaMoves(res: real, v: real, d: real, t: real)
    requires res > 0.0 && d != 0.0
    ensures Delta(res, d) > 0.0
    ensures Pos(v, d, t + Delta(res, d)) == Pos(v, d, t) + if d > 0.0 then res else -res
  {
    var delta := Delta(res, d);
    assert delta * Abs(d) == res;
    assert (t + delta) * d == t * d + delta * d;
  }

  // Stepping over the border: the coordinate is now on the closure of the next stretch, and leaves that one `Delta` later.
  lemma StepKeeps(a: Axis, tIn: real)
    requires AxisInv(a, tIn) && a.d != 0.0
    ensures Delta(a.res, a.d) > 0.0 && AxisInv(Stepped(a, Delta(a.res, a.d)), a.tMax.value)
  {
    hide Line, Pos, Delta;
    DeltaMoves(a.res, a.v0, a.d, a.tMax.value);
    LinesInOrder(a.res, a.k - 1, a.k);
    LinesInOrder(a.res, a.k, a.k + 1);
    LinesInOrder(a.res, a.k + 1, a.k + 2);
  }

  function FirstLeave(res: real, v0: real, d: real, k: int): Option<real> {
    if d == 0.0 then None else Some(((if d > 0.0 then (k + 1) as real * res else k as real * res) - v0) / d)
  }

  lemma CellOfStart(res: real, v0: real)
    requires res > 0.0
    ensures var k := (v0 / res).Floor; Line(res, k) <= v0 < Line(res, k + 1)
  {
    var q := v0 / res;
    var k := q.Floor;
    var r := (k + 1) as real;
    FloorBounds(res, k as real, q, r);
    assert q * res == v0;
    assert k == (v0 / res).Floor;
    assert Line(res, k) == k as real * res;
    assert Line(res, k) <= v0;
    assert Line(res, k + 1) == r * res;
    assert v0 < Line(res, k + 1);
  }

  lemma FloorBounds(res: real, x: real, q: real, y: real)
    requires res > 0.0 && x <= q < y
    ensures x * res <= q * res < y * res
  {
    Scaled(x, q, res);
    ScaledStrict(q, y, res);
  }

  lemma LeaveTime(v0: real, d: real, b: real)
    requires d != 0.0 && (if d > 0.0 then v0 <= b else b <= v0)
    ensures (b - v0) / d >= 0.0 && Pos(v0, d, (b - v0) / d) == b
  {
    var t := (b - v0) / d;
    assert t * d == b - v0;
    if t < 0.0 { NegativeTimes(t, d); }
  }

  lemma NegativeTimes(t: real, d: real)
    requires t < 0.0
    ensures d > 0.0 ==> t * d < 0.0
    ensures d < 0.0 ==> t * d > 0.0
  {
  }

  lemma StartInv(res: real, v0: real, d: real)
    requires res > 0.0
    ensures var k := (v0 / res).Floor; AxisInv(Axis(res, v0, d, k, FirstLeave(res, v0, d, k)), 0.0)
  {
    var k := (v0 / res).Floor;
    CellOfStart(res, v0);
    assert Pos(v0, d, 0.0) == v0;
    assert (k + 1) as real * res == Line(res, k + 1) && k as real * res == Line(res, k);
    hide Pos, Line;
    if d > 0.0 { LeaveTime(v0, d, Line(res, k + 1)); }
    if d < 0.0 { LeaveTime(v0, d, Line(res, k)); }
  }

  // ---- termination ---------------------------------------------------------------------------------------------------------

  // Steps left before a coordinate that next leaves at `t` is past the range.
  function StepsLeft(t: Option<real>, delta: real, range: real): nat
    requires delta > 0.0
  {
    if t.None? || t.value > range then 0
    else
      NotNegative((range - t.value) / delta, delta, range - t.value);
      ((range - t.value) / delta).Floor + 1
  }

  lemma NotNegative(q: real, delta: real, left: real)
    requires delta > 0.0 && q * delta == left && left >= 0.0
    ensures q >= 0.0
  {
    if q < 0.0 { NegativeTimes(q, delta); }
  }

  lemma OneLess(q: real, q': real, delta: real, left: real)
    requires delta > 0.0 && q * delta == left && q' * delta == left - delta
    ensures q' == q - 1.0
  {
    var x := q' - (q - 1.0);
    assert x * delta == q' * delta - q * delta + delta;
    assert x * delta == 0.0;
  }

  lemma StepTaken(t: real, delta: real, range: real)
    requires delta > 0.0 && t <= range
    ensures StepsLeft(Some(t + delta), delta, range) < StepsLeft(Some(t), delta, range)
  {
    OneLess((range - t) / delta, (range - (t + delta)) / delta, delta, range - t);
  }

  // ---- the plane -----------------------------------------------------------------------------------------------------------

  // A ray from (x0, y0) along (dx, dy), over cells of edge `res`.
  datatype Ray = Ray(res: real, x0: real, y0: real, dx: real, dy: real)

  predicate InInterior(ray: Ray, s: real, i: int, j: int) {
    Inner(Pos(ray.x0, ray.dx, s), ray.res, i) && Inner(Pos(ray.y0, ray.dy, s), ray.res, j)
  }

  predicate InClosure(ray: Ray, s: real, i: int, j: int) {
    Closed(Pos(ray.x0, ray.dx, s), ray.res, i) && Closed(Pos(ray.y0, ray.dy, s), ray.res, j)
  }

  lemma CellsApart(ray: Ray, s: real, i: int, j: int, a: int, b: int)
    requires ray.res > 0.0 && InClosure(ray, s, i, j) && InInterior(ray, s, a, b)
    ensures i == a && j == b
  {
    StretchesApart(Pos(ray.x0, ray.dx, s), ray.res, i, a);
    StretchesApart(Pos(ray.y0, ray.dy, s), ray.res, j, b);
  }

  // Every cell whose interior the ray meets before `t` was visited, and is free.
  ghost predicate FreeBefore(ray: Ray, blocked: (int, int) -> bool, visited: seq<(int, int)>, t: real) {
    forall s: real, a: int, b: int :: 0.0 <= s < t && InInterior(ray, s, a, b) ==> (a, b) in visited && !blocked(a, b)
  }

  // The cells are visited one after the other over shared edges, x first at a corner.
  ghost predicate EdgePath(visited: seq<(int, int)>) {
    forall k :: 0 < k < |visited| ==>
      var p, q := visited[k - 1], visited[k];
      (p.0 == q.0 && (p.1 == q.1 + 1 || q.1 == p.1 + 1)) || (p.1 == q.1 && (p.0 == q.0 + 1 || q.0 == p.0 + 1))
  }

  // The walk so far: it entered cell (x.k, y.k) at `tIn`, every cell visited is free, and it met no other before.
  ghost predicate WalkInv(ray: Ray, blocked: (int, int) -> bool, visited: seq<(int, int)>, x: Axis, y: Axis, tIn: real) {
    && ray.res > 0.0 && 0.0 <= tIn
    && x.res == y.res == ray.res && x.v0 == ray.x0 && y.v0 == ray.y0 && x.d == ray.dx && y.d == ray.dy
    && AxisInv(x, tIn) && AxisInv(y, tIn)
    && visited != [] && visited[|visited| - 1] == (x.k, y.k)
    && (forall c :: c in visited ==> !blocked(c.0, c.1))
    && EdgePath(visited)
    && FreeBefore(ray, blocked, visited, tIn)
  }

  // Up to the next border (and up to any point before it) the ray only meets the cell it is in.
  lemma FreeUntil(ray: Ray, blocked: (int, int) -> bool, visited: seq<(int, int)>, x: Axis, y: Axis, tIn: real, t: real)
    requires WalkInv(ray, blocked, visited, x, y, tIn)
    requires tIn <= t && (x.tMax.Some? ==> t <= x.tMax.value) && (y.tMax.Some? ==> t <= y.tMax.value)
    ensures FreeBefore(ray, blocked, visited, t)
    ensures InClosure(ray, t, x.k, y.k) && AxisInv(x, t) && AxisInv(y, t)
  {
    StaysClosed(x, tIn, t);
    StaysClosed(y, tIn, t);
    hide InInterior, AxisInv, EdgePath;
    forall s: real, a: int, b: int | 0.0 <= s < t && InInterior(ray, s, a, b)
      ensures (a, b) in visited && !blocked(a, b)
    {
      if s >= tIn {
        StaysClosed(x, tIn, s);
        StaysClosed(y, tIn, s);
        CellsApart(ray, s, x.k, y.k, a, b);
      }
    }
  }

  lemma CrossX(ray: Ray, blocked: (int, int) -> bool, visited: seq<(int, int)>, x: Axis, y: Axis, tIn: real)
    requires WalkInv(ray, blocked, visited, x, y, tIn)
    requires x.tMax.Some? && (y.tMax.Some? ==> x.tMax.value <= y.tMax.value)
    ensures x.d != 0.0
    ensures var t, x' := x.tMax.value, Stepped(x, Delta(x.res, x.d));
      && FreeBefore(ray, blocked, visited, t) && InClosure(ray, t, x'.k, y.k)
      && (!blocked(x'.k, y.k) ==> WalkInv(ray, blocked, visited + [(x'.k, y.k)], x', y, t))
  {
    FreeUntil(ray, blocked, visited, x, y, tIn, x.tMax.value);
    StepKeeps(x, tIn);
    hide InInterior, Line, Delta;
  }

  lemma CrossY(ray: Ray, blocked: (int, int) -> bool, visited: seq<(int, int)>, x: Axis, y: Axis, tIn: real)
    requires WalkInv(ray, blocked, visited, x, y, tIn)
    requires y.tMax.Some? && (x.tMax.Some? ==> y.tMax.value <= x.tMax.value)
    ensures y.d != 0.0
    ensures var t, y' := y.tMax.value, Stepped(y, Delta(y.res, y.d));
      && FreeBefore(ray, blocked, visited, t) && InClosure(ray, t, x.k, y'.k)
      && (!blocked(x.k, y'.k) ==> WalkInv(ray, blocked, visited + [(x.k, y'.k)], x, y', t))
  {
    FreeUntil(ray, blocked, visited, x, y, tIn, y.tMax.value);
    StepKeeps(y, tIn);
    hide InInterior, Line, Delta;
  }

  lemma WalkStarts(ray: Ray, blocked: (int, int) -> bool)
    requires ray.res > 0.0 && !blocked((ray.x0 / ray.res).Floor, (ray.y0 / ray.res).Floor)
    ensures var i, j := (ray.x0 / ray.res).Floor, (ray.y0 / ray.res).Floor;
      WalkInv(ray, blocked, [(i, j)], Axis(ray.res, ray.x0, ray.dx, i, FirstLeave(ray.res, ray.x0, ray.dx, i)),
              Axis(ray.res, ray.y0, ray.dy, j, FirstLeave(ray.res, ray.y0, ray.dy, j)), 0.0)
  {
    StartInv(ray.res, ray.x0, ray.dx);
    StartInv(ray.res, ray.y0, ray.dy);
    hide AxisInv, FirstLeave, InInterior;
  }

  // The ray touches the closure of each of the cells by `t`.
  ghost predicate AllTouched(ray: Ray, cells: seq<(int, int)>, t: real) { forall c :: c in cells ==> Touches(ray, c, t) }

  ghost predicate Touches(ray: Ray, c: (int, int), t: real) { exists s: real :: 0.0 <= s <= t && InClosure(ray, s, c.0, c.1) }

  lemma TouchedMore(ray: Ray, cells: seq<(int, int)>, before: real, t: real, c: (int, int))
    requires AllTouched(ray, cells, before) && 0.0 <= before <= t
    ensures AllTouched(ray, cells, t)
    ensures InClosure(ray, t, c.0, c.1) ==> AllTouched(ray, cells + [c], t)
  {
    hide InClosure;
  }

  lemma StartTouched(ray: Ray)
    requires ray.res > 0.0
    ensures AllTouched(ray, [((ray.x0 / ray.res).Floor, (ray.y0 / ray.res).Floor)], 0.0)
  {
    AtStart(ray);
  }

  // What a cast says. On a hit: the cell is blocked, the point at the distance is on its closure, and before it the ray
  // met only free cells. On no hit: within the range it meets no blocked cell's interior. Either way every cell whose
  // interior it met was visited, over shared edges, and no cell was visited that it does not touch.
  ghost predicate Answers(ray: Ray, blocked: (int, int) -> bool, range: real, visited: seq<(int, int)>, out: RayHit)
    requires ray.res > 0.0
  {
    && EdgePath(visited) && visited != []
    && (forall c :: c in visited ==> !blocked(c.0, c.1))
    && visited[0] == ((ray.x0 / ray.res).Floor, (ray.y0 / ray.res).Floor)
    && (range >= 0.0 ==> AllTouched(ray, visited, out.distanceM))
    && if out.hit then
         && blocked(out.i, out.j)
         && (range >= 0.0 ==> 0.0 <= out.distanceM <= range)
         && InClosure(ray, out.distanceM, out.i, out.j)
         && FreeBefore(ray, blocked, visited, out.distanceM)
       else
         && out.distanceM == range
         && (out.i, out.j) == visited[|visited| - 1]
         && (range >= 0.0 ==> InClosure(ray, range, out.i, out.j))
         && FreeBefore(ray, blocked, visited, range)
  }

  // The traversal along a unit direction.
  method Walk(blocked: (int, int) -> bool, ray: Ray, range: real) returns (out: RayHit, ghost visited: seq<(int, int)>)
    requires ray.res > 0.0 && ray.dx * ray.dx + ray.dy * ray.dy == 1.0
    ensures blocked((ray.x0 / ray.res).Floor, (ray.y0 / ray.res).Floor) ==>
      out == RayHit(true, 0.0, (ray.x0 / ray.res).Floor, (ray.y0 / ray.res).Floor)
    ensures !blocked((ray.x0 / ray.res).Floor, (ray.y0 / ray.res).Floor) ==> Answers(ray, blocked, range, visited, out)
  {
    hide WalkInv, FirstLeave, InClosure, InInterior, FreeBefore, EdgePath, Delta, StepsLeft, AllTouched;
    var i := (ray.x0 / ray.res).Floor;
    var j := (ray.y0 / ray.res).Floor;
    out := RayHit(false, range, i, j);
    visited := [(i, j)];
    if blocked(i, j) {
      out := RayHit(true, 0.0, i, j);
      return;
    }
    WalkStarts(ray, blocked);
    StartTouched(ray);
    assert ray.dx != 0.0 || ray.dy != 0.0;
    var stepI, stepJ := Step(ray.dx), Step(ray.dy);
    var tDeltaX := if stepI == 0 then 1.0 else Delta(ray.res, ray.dx);
    var tDeltaY := if stepJ == 0 then 1.0 else Delta(ray.res, ray.dy);
    assert tDeltaX > 0.0 && tDeltaY > 0.0 by {
      if stepI != 0 { DeltaMoves(ray.res, ray.x0, ray.dx, 0.0); }
      if stepJ != 0 { DeltaMoves(ray.res, ray.y0, ray.dy, 0.0); }
    }
    var tMaxX := FirstLeave(ray.res, ray.x0, ray.dx, i);
    var tMaxY := FirstLeave(ray.res, ray.y0, ray.dy, j);
    ghost var tIn := 0.0;
    while true
      invariant WalkInv(ray, blocked, visited, Axis(ray.res, ray.x0, ray.dx, i, tMaxX), Axis(ray.res, ray.y0, ray.dy, j, tMaxY), tIn)
      invariant visited != [] && visited[0] == ((ray.x0 / ray.res).Floor, (ray.y0 / ray.res).Floor)
      invariant (tIn == 0.0 || 0.0 <= tIn <= range) && AllTouched(ray, visited, tIn)
      invariant out == RayHit(false, range, i, j)
      decreases StepsLeft(tMaxX, tDeltaX, range) + StepsLeft(tMaxY, tDeltaY, range)
    {
      ghost var x, y := Axis(ray.res, ray.x0, ray.dx, i, tMaxX), Axis(ray.res, ray.y0, ray.dy, j, tMaxY);
      WalkFacts(ray, blocked, visited, x, y, tIn);
      var t: real;
      if tMaxX.Some? && (tMaxY.None? || tMaxX.value <= tMaxY.value) {
        CrossX(ray, blocked, visited, x, y, tIn);
        t := tMaxX.value;
        if t <= range { StepTaken(t, tDeltaX, range); }
        tMaxX := Some(t + tDeltaX);
        i := i + stepI;
      } else {
        CrossY(ray, blocked, visited, x, y, tIn);
        t := tMaxY.value;
        if t <= range { StepTaken(t, tDeltaY, range); }
        tMaxY := Some(t + tDeltaY);
        j := j + stepJ;
      }
      TouchedMore(ray, visited, tIn, t, (i, j));
      if range >= tIn { TouchedMore(ray, visited, tIn, range, (i, j)); }
      if t > range {
        if range >= 0.0 { FreeUntil(ray, blocked, visited, x, y, tIn, range); }
        NothingBefore(ray, blocked, visited, range);
        return;
      }
      out := out.(i := i, j := j);
      if blocked(i, j) {
        out := out.(hit := true, distanceM := t);
        return;
      }
      visited := visited + [(i, j)];
      tIn := t;
    }
  }

  lemma WalkFacts(ray: Ray, blocked: (int, int) -> bool, visited: seq<(int, int)>, x: Axis, y: Axis, tIn: real)
    requires WalkInv(ray, blocked, visited, x, y, tIn)
    ensures (x.tMax.None? <==> ray.dx == 0.0) && (y.tMax.None? <==> ray.dy == 0.0)
    ensures 0.0 <= tIn && (x.tMax.Some? ==> tIn <= x.tMax.value) && (y.tMax.Some? ==> tIn <= y.tMax.value)
    ensures visited != [] && visited[|visited| - 1] == (x.k, y.k) && EdgePath(visited)
    ensures forall c :: c in visited ==> !blocked(c.0, c.1)
  {
  }

  lemma NothingBefore(ray: Ray, blocked: (int, int) -> bool, visited: seq<(int, int)>, range: real)
    ensures range < 0.0 ==> FreeBefore(ray, blocked, visited, range)
  {
  }

  // ---- any direction -------------------------------------------------------------------------------------------------------

  // The ray along a direction of length `len`.
  function Along(res: real, x0: real, y0: real, dirX: real, dirY: real, len: real): Ray
    requires len != 0.0
  {
    Ray(res, x0, y0, dirX / len, dirY / len)
  }

  // `len` stands for the square root of the direction's squares. Without a direction nothing is asked.
  method Raycast2d(blocked: (int, int) -> bool, res: real, x0: real, y0: real, dirX: real, dirY: real, len: real, range: real)
    returns (out: RayHit, ghost visited: seq<(int, int)>)
    requires res > 0.0 && len >= 0.0 && Square(len) == Square(dirX) + Square(dirY)
    ensures len == 0.0 ==> out == RayHit(false, range, (x0 / res).Floor, (y0 / res).Floor)
    ensures len > 0.0 && blocked((x0 / res).Floor, (y0 / res).Floor) ==>
      out == RayHit(true, 0.0, (x0 / res).Floor, (y0 / res).Floor)
    ensures len > 0.0 && !blocked((x0 / res).Floor, (y0 / res).Floor) ==>
      Answers(Along(res, x0, y0, dirX, dirY, len), blocked, range, visited, out)
  {
    hide Answers, Square;
    if len == 0.0 {
      out := RayHit(false, range, (x0 / res).Floor, (y0 / res).Floor);
      visited := [];
      return;
    }
    UnitDirection(dirX, dirY, len);
    out, visited := Walk(blocked, Along(res, x0, y0, dirX, dirY, len), range);
  }

  // ---- line of sight -------------------------------------------------------------------------------------------------------

  // No blocked cell's interior is met before `dist`; or the sight is cut by a blocked cell the segment touches.
  ghost predicate Clear(ray: Ray, blocked: (int, int) -> bool, dist: real) {
    forall s: real, a: int, b: int :: 0.0 <= s < dist && InInterior(ray, s, a, b) ==> !blocked(a, b)
  }

  ghost predicate Cut(ray: Ray, blocked: (int, int) -> bool, dist: real) {
    exists s: real, a: int, b: int :: 0.0 <= s <= dist && InClosure(ray, s, a, b) && blocked(a, b)
  }

  lemma UnitDirection(dx: real, dy: real, dist: real)
    requires dist > 0.0 && Square(dist) == Square(dx) + Square(dy)
    ensures (dx / dist) * (dx / dist) + (dy / dist) * (dy / dist) == 1.0
  {
    var u, v := dx / dist, dy / dist;
    assert u * dist == dx && v * dist == dy;
    assert Square(dx) == (u * u) * Square(dist);
    assert Square(dy) == (v * v) * Square(dist);
    var x := u * u + v * v - 1.0;
    assert x * Square(dist) == (u * u) * Square(dist) + (v * v) * Square(dist) - Square(dist);
    SquarePositive(dist);
    hide Square;
    var q := Square(dist);
    assert x * q == 0.0;
  }

  // `dist` is the length of the segment.
  method LineOfSight(blocked: (int, int) -> bool, res: real, x0: real, y0: real, x1: real, y1: real, dist: real)
    returns (r: bool)
    requires res > 0.0 && dist >= 0.0 && Square(dist) == Square(x1 - x0) + Square(y1 - y0)
    ensures dist == 0.0 ==> r == !blocked((x0 / res).Floor, (y0 / res).Floor)
    ensures dist > 0.0 && r ==> Clear(Along(res, x0, y0, x1 - x0, y1 - y0, dist), blocked, dist)
    ensures dist > 0.0 && !r ==> Cut(Along(res, x0, y0, x1 - x0, y1 - y0, dist), blocked, dist)
  {
    if dist == 0.0 { return !blocked((x0 / res).Floor, (y0 / res).Floor); }
    var out, visited := Raycast2d(blocked, res, x0, y0, x1 - x0, y1 - y0, dist, dist);
    ghost var ray := Along(res, x0, y0, x1 - x0, y1 - y0, dist);
    AtStart(ray);
    return !out.hit;
  }

  lemma AtStart(ray: Ray)
    requires ray.res > 0.0
    ensures InClosure(ray, 0.0, (ray.x0 / ray.res).Floor, (ray.y0 / ray.res).Floor)
  {
    CellOfStart(ray.res, ray.x0);
    CellOfStart(ray.res, ray.y0);
  }
}
