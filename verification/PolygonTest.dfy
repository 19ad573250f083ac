/** The point-in-polygon test of geofenceHelper.py: an even-odd ray cast over the closed
    polygon, with a bounding-box rejection and a per-edge latitude shortcut in front of it.
    `EvenOdd` is the plain rule; `IsPointInPolygonCustom` is the loop with the shortcuts. */
module PolygonTest {
  import opened EdgeCycles
  import opened Wrappers

  datatype Point = Point(lat: real, lon: real)

  /** A call either yields a value or dies with Python's IndexError on `polygon[0]`. */
  datatype Outcome<+T> = Value(value: T) | IndexError

  function Min(x: real, y: real): real { if x <= y then x else y }

  function Max(x: real, y: real): real { if x >= y then x else y }

  /** The half-open longitude rule: exactly one end of the edge lies west of the point. */
  predicate Straddles(a: Point, b: Point, p: Point) {
    Min(a.lon, b.lon) < p.lon <= Max(a.lon, b.lon)
  }

  /** Latitude at which the line through `a` and `b` meets the meridian of `p`. */
  function Intersection(a: Point, b: Point, p: Point): real
    requires a.lon != b.lon
  {
    (p.lon - a.lon) * (b.lat - a.lat) / (b.lon - a.lon) + a.lat
  }

  predicate Crosses(a: Point, b: Point, p: Point) {
    Straddles(a, b, p) && p.lat <= Intersection(a, b, p)
  }

  /** The edge test as the code writes it, with its latitude shortcuts. */
  predicate CodeCrosses(a: Point, b: Point, p: Point) {
    && Straddles(a, b, p)
    && p.lat <= Max(a.lat, b.lat)
    && (a.lat == b.lat || p.lat <= Intersection(a, b, p))
  }

  /** The edge test of the ray from `p`. */
  function CrossTest(p: Point): EdgeTest<Point> {
    (a: Point, b: Point) => Crosses(a, b, p)
  }

  function StraddleTest(p: Point): EdgeTest<Point> {
    (a: Point, b: Point) => Straddles(a, b, p)
  }

  /** The even-odd rule: the ray from `p` crosses an odd number of edges of the polygon. */
  predicate EvenOdd(p: Point, polygon: seq<Point>)
    requires polygon != []
  {
    CycleCount(polygon, CrossTest(p)) % 2 == 1
  }

  // ---------------------------------------------------------------- one edge

  /** The intersection is a convex combination of the two latitudes. */
  lemma IntersectionAsCombination(a: Point, b: Point, p: Point) returns (t: real)
    requires a.lon != b.lon
    ensures t * (b.lon - a.lon) == p.lon - a.lon
    ensures Intersection(a, b, p) == a.lat + t * (b.lat - a.lat)
    ensures Straddles(a, b, p) ==> 0.0 <= t <= 1.0
  {
    var d := b.lon - a.lon;
    t := (p.lon - a.lon) / d;
    assert t * d == p.lon - a.lon;
    Rescale(p.lon - a.lon, d, b.lat - a.lat, t);
    if Straddles(a, b, p) {
      StraddleFraction(t, d, p.lon - a.lon);
    }
  }

  lemma Rescale(x: real, d: real, h: real, t: real)
    requires d != 0.0 && t * d == x
    ensures x * h / d == t * h
  {
    assert x * h == (t * h) * d;
  }

  lemma StraddleFraction(t: real, d: real, x: real)
    requires t * d == x
    requires 0.0 < x <= d || d < x <= 0.0
    ensures 0.0 <= t <= 1.0
  {
    if t < 0.0 {
      if d > 0.0 { MulSign(-t, d); } else { MulSign(-t, -d); }
    } else if t > 1.0 {
      if d > 0.0 { MulSign(t - 1.0, d); } else { MulSign(t - 1.0, -d); }
    }
  }

  lemma MulSign(x: real, y: real)
    requires x > 0.0 && y > 0.0
    ensures x * y > 0.0
  {}

  lemma IntersectionBetween(a: Point, b: Point, p: Point)
    requires Straddles(a, b, p)
    ensures Min(a.lat, b.lat) <= Intersection(a, b, p) <= Max(a.lat, b.lat)
  {
    var t := IntersectionAsCombination(a, b, p);
    LerpBetween(a.lat, b.lat, t);
  }

  /** Both latitude guards of the code are pure shortcuts. */
  lemma CodeCrossesIsCrosses(a: Point, b: Point, p: Point)
    ensures CodeCrosses(a, b, p) == Crosses(a, b, p)
  {
    if Straddles(a, b, p) {
      IntersectionBetween(a, b, p);
    }
  }

  predicate West(a: Point, p: Point) { a.lon < p.lon }

  lemma CrossesSymmetric(a: Point, b: Point, p: Point)
    ensures Crosses(a, b, p) == Crosses(b, a, p)
  {
    if Straddles(a, b, p) {
      var t := IntersectionAsCombination(a, b, p);
      var u := IntersectionAsCombination(b, a, p);
      var d, h := b.lon - a.lon, b.lat - a.lat;
      assert (t + u - 1.0) * d == 0.0;
      Cancel(t + u - 1.0, d);
      assert u == 1.0 - t;
      assert u * (a.lat - b.lat) == t * h - h;
    }
  }

  lemma Cancel(x: real, y: real)
    requires x * y == 0.0 && y != 0.0
    ensures x == 0.0
  {}

  /** `v` lies on the edge from `a` to `b`, the fraction `t` of the way along. */
  predicate OnEdge(a: Point, b: Point, v: Point, t: real) {
    && 0.0 <= t <= 1.0
    && v.lat == a.lat + t * (b.lat - a.lat)
    && v.lon == a.lon + t * (b.lon - a.lon)
  }

  lemma OnEdgeBetween(a: Point, b: Point, v: Point, t: real)
    requires OnEdge(a, b, v, t)
    ensures Min(a.lon, b.lon) <= v.lon <= Max(a.lon, b.lon)
    ensures OnEdge(b, a, v, 1.0 - t)
  {
    LerpBetween(a.lon, b.lon, t);
    LerpFlip(a.lon, b.lon, t);
    LerpFlip(a.lat, b.lat, t);
  }

  lemma LerpBetween(x: real, y: real, t: real)
    requires 0.0 <= t <= 1.0
    ensures Min(x, y) <= x + t * (y - x) <= Max(x, y)
  {
    var step := FractionBetween(t, y - x);
    StepBetween(x, y, step);
  }

  lemma StepBetween(x: real, y: real, step: real)
    requires if y - x >= 0.0 then 0.0 <= step <= y - x else y - x <= step <= 0.0
    ensures Min(x, y) <= x + step <= Max(x, y)
  {}

  lemma FractionBetween(t: real, d: real) returns (step: real)
    requires 0.0 <= t <= 1.0
    ensures step == t * d
    ensures if d >= 0.0 then 0.0 <= step <= d else d <= step <= 0.0
  {
    step := t * d;
    assert (1.0 - t) * d == d - step;
    if d >= 0.0 {
      MulNonNegative(t, d);
      MulNonNegative(1.0 - t, d);
    } else {
      MulNonNegative(t, -d);
      MulNonNegative(1.0 - t, -d);
    }
  }

  lemma MulNonNegative(x: real, y: real)
    requires x >= 0.0 && y >= 0.0
    ensures x * y >= 0.0
  {}

  lemma LerpFlip(x: real, y: real, t: real)
    ensures x + t * (y - x) == y + (1.0 - t) * (x - y)
  {}

  lemma SameFraction(t: real, part: real, whole: real, d: real, h: real)
    requires part * (t * d) == whole * d && d != 0.0
    ensures part * (t * h) == whole * h
  {
    assert (part * t - whole) * d == part * (t * d) - whole * d;
    Cancel(part * t - whole, d);
    assert part * (t * h) == (part * t) * h;
  }

  /** A sub-edge that straddles the meridian meets it where the whole edge does. */
  lemma SubEdgeIntersection(a: Point, b: Point, v: Point, t: real, p: Point)
    requires OnEdge(a, b, v, t) && Straddles(a, v, p) && a.lon != b.lon
    ensures Intersection(a, v, p) == Intersection(a, b, p)
  {
    var whole := IntersectionAsCombination(a, b, p);
    var part := IntersectionAsCombination(a, v, p);
    SameFraction(t, part, whole, b.lon - a.lon, b.lat - a.lat);
  }

  /** Splitting an edge at a point on it preserves the number of crossings. */
  lemma SplitEdge(a: Point, b: Point, v: Point, t: real, p: Point)
    requires OnEdge(a, b, v, t)
    ensures Bit(Crosses(a, b, p)) == Bit(Crosses(a, v, p)) + Bit(Crosses(v, b, p))
  {
    OnEdgeBetween(a, b, v, t);
    CrossesSymmetric(a, b, p);
    CrossesSymmetric(v, b, p);
    if Straddles(a, v, p) {
      SubEdgeIntersection(a, b, v, t, p);
    } else if Straddles(v, b, p) {
      SubEdgeIntersection(b, a, v, 1.0 - t, p);
      CrossesAreIntersections(a, b, p);
    }
  }

  lemma CrossesAreIntersections(a: Point, b: Point, p: Point)
    requires Straddles(a, b, p)
    ensures Crosses(a, b, p) <==> p.lat <= Intersection(b, a, p)
  {
    CrossesSymmetric(a, b, p);
  }

  // ---------------------------------------------------------------- the bounding box

  /** `lo`/`hi` bound every vertex of the polygon, as the first loop computes them. */
  predicate Bounds(polygon: seq<Point>, lo: Point, hi: Point) {
    forall v :: v in polygon ==> lo.lat <= v.lat <= hi.lat && lo.lon <= v.lon <= hi.lon
  }

  /** Every side of the box touches the polygon. */
  predicate Tight(polygon: seq<Point>, lo: Point, hi: Point) {
    && (exists v :: v in polygon && v.lat == lo.lat) && (exists v :: v in polygon && v.lat == hi.lat)
    && (exists v :: v in polygon && v.lon == lo.lon) && (exists v :: v in polygon && v.lon == hi.lon)
  }

  predicate OutsideBox(p: Point, lo: Point, hi: Point) {
    p.lat > hi.lat || p.lat < lo.lat || p.lon > hi.lon || p.lon < lo.lon
  }

  /** Rejecting a point outside a box around the polygon never changes the answer: south of it
      every straddling edge is crossed, and a closed polygon has an even number of those. */
  lemma BoxRejectionSound(polygon: seq<Point>, lo: Point, hi: Point, p: Point)
    requires polygon != [] && Bounds(polygon, lo, hi) && OutsideBox(p, lo, hi)
    ensures !EvenOdd(p, polygon)
  {
    var path := Closed(polygon);
    assert forall v :: v in path ==> v in polygon;
    forall a, b | a in path && b in path
      ensures p.lat > hi.lat || p.lon > hi.lon || p.lon < lo.lon ==> !Crosses(a, b, p)
      ensures p.lat < lo.lat ==> Crosses(a, b, p) == Straddles(a, b, p)
    {
      if Straddles(a, b, p) { IntersectionBetween(a, b, p); }
    }
    if p.lat > hi.lat || p.lon > hi.lon || p.lon < lo.lon {
      CountNone(path, CrossTest(p));
    } else {
      CountAgree(path, CrossTest(p), StraddleTest(p));
      ChangesParity(path, StraddleTest(p), (v: Point) => West(v, p));
    }
  }

  // ---------------------------------------------------------------- the algorithm

  /** The body of the edge loop: whether the edge toggles the answer. The division is guarded
      by the straddle condition, so it is never by zero. */
  method EdgeToggles(lat1: real, lon1: real, lat2: real, lon2: real, point: Point) returns (toggles: bool)
    ensures toggles == Crosses(Point(lat1, lon1), Point(lat2, lon2), point)
  {
    CodeCrossesIsCrosses(Point(lat1, lon1), Point(lat2, lon2), point);
    toggles := false;
    var latIntersection := 0.0;
    if Min(lon1, lon2) < point.lon <= Max(lon1, lon2) && point.lat <= Max(lat1, lat2) {
      if lon1 != lon2 {
        latIntersection := (point.lon - lon1) * (lat2 - lat1) / (lon2 - lon1) + lat1;
        assert latIntersection == Intersection(Point(lat1, lon1), Point(lat2, lon2), point);
      }
      if lat1 == lat2 || point.lat <= latIntersection {
        toggles := true;
      }
    }
  }

  /** The loop that computes the bounding box of a polygon. */
  method BoundingBox(polygon: seq<Point>) returns (lo: Point, hi: Point)
    requires polygon != []
    ensures Bounds(polygon, lo, hi) && Tight(polygon, lo, hi)
  {
    var maxLat, minLat := polygon[0].lat, polygon[0].lat;
    var maxLon, minLon := polygon[0].lon, polygon[0].lon;
    for i := 0 to |polygon|
      invariant forall k :: 0 <= k < i ==> minLat <= polygon[k].lat <= maxLat && minLon <= polygon[k].lon <= maxLon
      invariant Tight(polygon, Point(minLat, minLon), Point(maxLat, maxLon))
    {
      var coords := polygon[i];
      maxLat := Max(coords.lat, maxLat);
      minLat := Min(coords.lat, minLat);
      maxLon := Max(coords.lon, maxLon);
      minLon := Min(coords.lon, minLon);
    }
    return Point(minLat, minLon), Point(maxLat, maxLon);
  }

  /** The test as implemented, proved against the plain even-odd rule. */
  method IsPointInPolygonCustom(point: Point, polygon: seq<Point>) returns (result: Outcome<bool>)
    ensures polygon == [] ==> result == IndexError
    ensures polygon != [] ==> result == Value(EvenOdd(point, polygon))
  {
    hide Crosses;
    if polygon == [] {
      return IndexError;
    }
    var lo, hi := BoundingBox(polygon);
    if point.lat > hi.lat || point.lat < lo.lat || point.lon > hi.lon || point.lon < lo.lon {
      BoxRejectionSound(polygon, lo, hi, point);
      return Value(false);
    }

    var inside := false;
    var lat1, lon1 := polygon[0].lat, polygon[0].lon;
    var polySides := |polygon|;
    ghost var path, test := Closed(polygon), CrossTest(point);
    for polyPoint := 1 to polySides + 1
      invariant Point(lat1, lon1) == path[polyPoint - 1]
      invariant inside == (Count(path[..polyPoint], test) % 2 == 1)
    {
      var vertex := polygon[polyPoint % polySides];
      var lat2, lon2 := vertex.lat, vertex.lon;
      ClosedAt(polygon, polyPoint);
      CountStep(path, polyPoint, test);
      var toggles := EdgeToggles(lat1, lon1, lat2, lon2, point);
      if toggles {
        inside := !inside;
      }
      lat1, lon1 := lat2, lon2;
    }
    assert path[..polySides + 1] == path;
    return Value(inside);
  }

  // ---------------------------------------------------------------- what the answer means

  lemma CrossTestSymmetric(p: Point)
    ensures Symmetric(CrossTest(p))
  {
    forall a, b ensures Crosses(a, b, p) == Crosses(b, a, p) {
      CrossesSymmetric(a, b, p);
    }
  }

  /** Starting the vertex list elsewhere on the boundary changes no answer. */
  lemma RotationInvariant(polygon: seq<Point>, k: nat, p: Point)
    requires k < |polygon|
    ensures EvenOdd(p, polygon[k..] + polygon[..k]) == EvenOdd(p, polygon)
  {
    assert polygon == polygon[..k] + polygon[k..];
    CycleRotate(polygon[..k], polygon[k..], CrossTest(p));
  }

  /** Listing the vertices in the other direction changes no answer. */
  lemma ReversalInvariant(polygon: seq<Point>, p: Point)
    requires polygon != []
    ensures Reverse(polygon) != []
    ensures EvenOdd(p, Reverse(polygon)) == EvenOdd(p, polygon)
  {
    CrossTestSymmetric(p);
    CycleReverse(polygon, CrossTest(p));
  }

  /** Cutting a polygon along the chord between vertices `i` and `j` gives two polygons whose
      answers xor to the answer of the whole, wherever the chord runs. */
  lemma ChordCut(polygon: seq<Point>, i: nat, j: nat, p: Point)
    requires i < j < |polygon|
    ensures EvenOdd(p, polygon)
         == (EvenOdd(p, polygon[i..j + 1]) != EvenOdd(p, polygon[j..] + polygon[..i + 1]))
  {
    hide Crosses;
    CrossTestSymmetric(p);
    RotationInvariant(polygon, i, p);
    CutPieces(polygon, i, j);
    CycleCut(polygon[i..j], polygon[j..] + polygon[..i], CrossTest(p));
  }

  lemma CutPieces(polygon: seq<Point>, i: nat, j: nat)
    requires i < j < |polygon|
    ensures var near, far := polygon[i..j], polygon[j..] + polygon[..i];
            && polygon[i..] + polygon[..i] == near + far
            && polygon[i..j + 1] == near + [far[0]]
            && polygon[j..] + polygon[..i + 1] == far + [near[0]]
  {}

  lemma InsertedPath(polygon: seq<Point>, k: nat, v: Point)
    requires k < |polygon|
    ensures var a, b := polygon[k], polygon[(k + 1) % |polygon|];
            var before, after := polygon[..k], Closed(polygon)[k + 2..];
            && Closed(polygon) == before + [a, b] + after
            && Closed(polygon[..k + 1] + [v] + polygon[k + 1..]) == before + [a, v, b] + after
  {
    ClosedAt(polygon, k + 1);
    var cycle := polygon[..k + 1] + [v] + polygon[k + 1..];
    assert cycle[0] == polygon[0];
  }

  /** Inserting a vertex anywhere on the edge that leaves vertex `k` changes no answer. */
  lemma VertexInsertionInvariant(polygon: seq<Point>, k: nat, v: Point, t: real, p: Point)
    requires k < |polygon|
    requires OnEdge(polygon[k], polygon[(k + 1) % |polygon|], v, t)
    ensures EvenOdd(p, polygon[..k + 1] + [v] + polygon[k + 1..]) == EvenOdd(p, polygon)
  {
    hide Crosses;
    hide OnEdge;
    var a, b := polygon[k], polygon[(k + 1) % |polygon|];
    var before, after := polygon[..k], Closed(polygon)[k + 2..];
    InsertedPath(polygon, k, v);
    CountInsert(before, a, v, b, after, CrossTest(p));
    SplitEdge(a, b, v, t, p);
  }

  // ---------------------------------------------------------------- triangles and fans

  /** Twice the signed area of the triangle a, b, c. */
  function Orient(a: Point, b: Point, c: Point): real {
    (a.lat - c.lat) * (b.lon - c.lon) - (a.lon - c.lon) * (b.lat - c.lat)
  }

  /** `p` lies strictly on the same side of all three edges. */
  predicate StrictlyInside(a: Point, b: Point, c: Point, p: Point) {
    || (Orient(a, b, p) > 0.0 && Orient(b, c, p) > 0.0 && Orient(c, a, p) > 0.0)
    || (Orient(a, b, p) < 0.0 && Orient(b, c, p) < 0.0 && Orient(c, a, p) < 0.0)
  }

  /** `p` lies strictly on different sides of two of the edges. */
  predicate StrictlyOutside(a: Point, b: Point, c: Point, p: Point) {
    && (Orient(a, b, p) > 0.0 || Orient(b, c, p) > 0.0 || Orient(c, a, p) > 0.0)
    && (Orient(a, b, p) < 0.0 || Orient(b, c, p) < 0.0 || Orient(c, a, p) < 0.0)
  }

  /** The three signed areas are barycentric weights of `p`. */
  lemma Barycentric(a: Point, b: Point, c: Point, p: Point)
    ensures Orient(b, c, p) * (a.lon - p.lon) + Orient(c, a, p) * (b.lon - p.lon)
          + Orient(a, b, p) * (c.lon - p.lon) == 0.0
  {}

  /** Crossing an edge from west to east is a question of orientation. */
  lemma CrossesByOrientation(w: Point, e: Point, p: Point)
    requires w.lon < p.lon <= e.lon
    ensures Crosses(w, e, p) <==> Orient(w, e, p) >= 0.0
  {
    var t := IntersectionAsCombination(w, e, p);
    var d, h := e.lon - w.lon, e.lat - w.lat;
    var gap := w.lat + t * h - p.lat;
    assert Orient(w, e, p) == gap * d by {
      assert p.lon == w.lon + t * d;
      assert e.lon - p.lon == d - t * d && w.lon - p.lon == -(t * d);
      assert (t * d) * h == (t * h) * d;
    }
    if gap > 0.0 { MulSign(gap, d); } else if gap < 0.0 { MulSign(-gap, d); }
  }

  lemma OrientFlip(a: Point, b: Point, p: Point)
    ensures Orient(b, a, p) == -Orient(a, b, p)
  {}

  /** Weights and offsets of opposite signs cannot balance. */
  lemma CannotBalance(w1: real, x1: real, w2: real, x2: real, w3: real, x3: real)
    requires w1 * x1 + w2 * x2 + w3 * x3 == 0.0
    requires x1 < 0.0 && x2 >= 0.0 && x3 >= 0.0
    ensures !(w1 < 0.0 && w2 >= 0.0 && w3 >= 0.0)
    ensures !(w1 > 0.0 && w2 <= 0.0 && w3 <= 0.0)
  {
    assert w2 >= 0.0 ==> w2 * x2 >= 0.0;
    assert w3 >= 0.0 ==> w3 * x3 >= 0.0;
    assert w2 <= 0.0 ==> w2 * x2 <= 0.0;
    assert w3 <= 0.0 ==> w3 * x3 <= 0.0;
    if w1 < 0.0 { MulSign(-w1, -x1); } else if w1 > 0.0 { MulSign(w1, -x1); }
  }

  /** The signs the weights of `p` can have when one vertex is alone on its side of the meridian. */
  lemma LoneWeights(v: Point, u: Point, w: Point, p: Point)
    requires West(v, p) != West(u, p) && West(u, p) == West(w, p)
    ensures var ou, ow, oo := Orient(v, u, p), Orient(w, v, p), Orient(u, w, p);
            && (West(v, p) ==> !(oo < 0.0 && ow >= 0.0 && ou >= 0.0) && !(oo > 0.0 && ow <= 0.0 && ou <= 0.0))
            && (!West(v, p) ==>
                  && !(oo <= 0.0 && ow >= 0.0 && ou >= 0.0 && (ow > 0.0 || ou > 0.0))
                  && !(oo >= 0.0 && ow <= 0.0 && ou <= 0.0 && (ow < 0.0 || ou < 0.0)))
  {
    Barycentric(v, u, w, p);
    hide Orient;
    var ou, ow, oo := Orient(v, u, p), Orient(w, v, p), Orient(u, w, p);
    var xv, xu, xw := v.lon - p.lon, u.lon - p.lon, w.lon - p.lon;
    if West(v, p) {
      CannotBalance(oo, xv, ow, xu, ou, xw);
    } else {
      BalanceFromEast(oo, xv, ow, xu, ou, xw);
    }
  }

  /** A vertex alone on its side of the meridian: its two edges are the only ones that straddle. */
  lemma LoneVertex(v: Point, u: Point, w: Point, p: Point)
    requires West(v, p) != West(u, p) && West(u, p) == West(w, p)
    ensures StrictlyInside(v, u, w, p) ==> Crosses(v, u, p) != Crosses(w, v, p)
    ensures StrictlyOutside(v, u, w, p) ==> Crosses(v, u, p) == Crosses(w, v, p)
    ensures !Crosses(u, w, p)
  {
    assert !Crosses(u, w, p);
    LoneWeights(v, u, w, p);
    OrientFlip(u, v, p);
    OrientFlip(v, w, p);
    hide Crosses;
    hide Orient;
    CrossesSymmetric(v, u, p);
    CrossesSymmetric(w, v, p);
    if West(v, p) {
      CrossesByOrientation(v, u, p);
      CrossesByOrientation(v, w, p);
    } else {
      CrossesByOrientation(u, v, p);
      CrossesByOrientation(w, v, p);
    }
  }

  lemma BalanceFromEast(w1: real, x1: real, w2: real, x2: real, w3: real, x3: real)
    requires w1 * x1 + w2 * x2 + w3 * x3 == 0.0
    requires x1 >= 0.0 && x2 < 0.0 && x3 < 0.0
    ensures !(w1 <= 0.0 && w2 >= 0.0 && w3 >= 0.0 && (w2 > 0.0 || w3 > 0.0))
    ensures !(w1 >= 0.0 && w2 <= 0.0 && w3 <= 0.0 && (w2 < 0.0 || w3 < 0.0))
  {
    assert w1 <= 0.0 ==> w1 * x1 <= 0.0;
    assert w1 >= 0.0 ==> w1 * x1 >= 0.0;
    NegativeFactor(w2, x2);
    NegativeFactor(w3, x3);
  }

  lemma NegativeFactor(w: real, x: real)
    requires x < 0.0
    ensures w > 0.0 ==> w * x < 0.0
    ensures w < 0.0 ==> w * x > 0.0
  {
    if w > 0.0 { MulSign(w, -x); } else if w < 0.0 { MulSign(-w, -x); }
  }

  /** With all three vertices on one side of the meridian the point is not inside. */
  lemma OneSided(a: Point, b: Point, c: Point, p: Point)
    requires West(a, p) == West(b, p) == West(c, p)
    ensures !StrictlyInside(a, b, c, p)
  {
    var oa, ob, oc := Orient(b, c, p), Orient(c, a, p), Orient(a, b, p);
    var xa, xb, xc := a.lon - p.lon, b.lon - p.lon, c.lon - p.lon;
    Barycentric(a, b, c, p);
    assert oa * xa + ob * xb + oc * xc == 0.0;
    if West(a, p) {
      NegativeFactor(oa, xa);
      NegativeFactor(ob, xb);
      NegativeFactor(oc, xc);
    } else if StrictlyInside(a, b, c, p) {
      // Nonnegative offsets under weights of one strict sign: all offsets vanish, and an edge
      // on the meridian of p has orientation zero.
      OrientOnMeridian(a, b, p);
      if xa > 0.0 || xb > 0.0 || xc > 0.0 {
        PositiveSum(oa, xa, ob, xb, oc, xc);
        PositiveSum(-oa, xa, -ob, xb, -oc, xc);
      }
    }
  }

  lemma OrientOnMeridian(a: Point, b: Point, p: Point)
    ensures a.lon == p.lon && b.lon == p.lon ==> Orient(a, b, p) == 0.0
  {}

  lemma PositiveSum(w1: real, x1: real, w2: real, x2: real, w3: real, x3: real)
    requires x1 >= 0.0 && x2 >= 0.0 && x3 >= 0.0 && (x1 > 0.0 || x2 > 0.0 || x3 > 0.0)
    ensures w1 > 0.0 && w2 > 0.0 && w3 > 0.0 ==> w1 * x1 + w2 * x2 + w3 * x3 > 0.0
  {
    if w1 > 0.0 && w2 > 0.0 && w3 > 0.0 {
      assert w1 * x1 >= 0.0 && w2 * x2 >= 0.0 && w3 * x3 >= 0.0;
      if x1 > 0.0 { MulSign(w1, x1); } else if x2 > 0.0 { MulSign(w2, x2); } else { MulSign(w3, x3); }
    }
  }

  lemma TriangleCount(a: Point, b: Point, c: Point, test: EdgeTest<Point>)
    ensures CycleCount([a, b, c], test) == Bit(test(a, b)) + Bit(test(b, c)) + Bit(test(c, a))
  {
    var path := Closed([a, b, c]);
    assert path == [a, b, c, a];
    CountStep(path, 1, test);
    CountStep(path, 2, test);
    CountStep(path, 3, test);
    assert path[..4] == path;
  }

  /** Around a triangle the even-odd rule is the geometric one: it accepts every point strictly
      inside and rejects every point strictly outside. */
  lemma TriangleMeaning(a: Point, b: Point, c: Point, p: Point)
    ensures StrictlyInside(a, b, c, p) ==> EvenOdd(p, [a, b, c])
    ensures StrictlyOutside(a, b, c, p) ==> !EvenOdd(p, [a, b, c])
  {
    TriangleCount(a, b, c, CrossTest(p));
    assert CycleCount([a, b, c], CrossTest(p))
        == Bit(Crosses(a, b, p)) + Bit(Crosses(b, c, p)) + Bit(Crosses(c, a, p));
    if West(a, p) == West(b, p) {
      if West(b, p) == West(c, p) {
        OneSided(a, b, c, p);
      } else {
        LoneVertex(c, a, b, p);
      }
    } else if West(b, p) == West(c, p) {
      LoneVertex(a, b, c, p);
    } else {
      LoneVertex(b, c, a, p);
    }
  }

  /** How many triangles of the fan from vertex 0 accept the point. */
  function FanCount(p: Point, polygon: seq<Point>): nat {
    var n := |polygon|;
    if n < 3 then 0
    else FanCount(p, polygon[..n - 1]) + Bit(EvenOdd(p, [polygon[0], polygon[n - 2], polygon[n - 1]]))
  }

  /** A polygon with one or two vertices accepts nothing. */
  lemma DegenerateRejects(polygon: seq<Point>, p: Point)
    requires 1 <= |polygon| <= 2
    ensures !EvenOdd(p, polygon)
  {
    var a, b := polygon[0], polygon[|polygon| - 1];
    if |polygon| == 1 {
      assert Closed(polygon) == [a, a];
      CountPair(a, a, CrossTest(p));
    } else {
      CycleSplit([a], [b], CrossTest(p));
      assert polygon == [a] + [b] && [a] + [b] == [a, b] && [b] + [a] == [b, a];
      CountPair(a, b, CrossTest(p));
      CountPair(b, a, CrossTest(p));
      CrossesSymmetric(a, b, p);
    }
  }

  /** Cutting off the last ear of a polygon. */
  lemma EarCut(polygon: seq<Point>, p: Point)
    requires |polygon| >= 3
    ensures var n := |polygon|;
            EvenOdd(p, polygon) ==
            (EvenOdd(p, polygon[..n - 1]) != EvenOdd(p, [polygon[0], polygon[n - 2], polygon[n - 1]]))
  {
    var n := |polygon|;
    ChordCut(polygon, 0, n - 2, p);
    assert polygon[0..n - 2 + 1] == polygon[..n - 1];
    var ear := [polygon[0], polygon[n - 2], polygon[n - 1]];
    RotationInvariant(ear, 1, p);
    assert ear[1..] + ear[..1] == polygon[n - 2..] + polygon[..1];
  }

  /** The meaning of the answer for any polygon, however twisted: it is the parity of the number
      of triangles of the fan from its first vertex that contain the point. */
  lemma {:induction false} FanMeaning(polygon: seq<Point>, p: Point)
    requires polygon != []
    ensures EvenOdd(p, polygon) == (FanCount(p, polygon) % 2 == 1)
    decreases |polygon|
  {
    if |polygon| < 3 {
      DegenerateRejects(polygon, p);
    } else {
      FanMeaning(polygon[..|polygon| - 1], p);
      EarCut(polygon, p);
    }
  }
}
