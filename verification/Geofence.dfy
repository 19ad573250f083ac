/** GeofenceHelper of geofenceHelper.py: include and exclude fences, the filter over coordinates
    and the bounding box used to pre-filter database rows. The matplotlib branch is not modelled. */
module Geofence {
  import opened PolygonTest

  datatype Area = Area(name: string, polygon: seq<Point>)

  datatype Box = Box(minLat: real, minLon: real, maxLat: real, maxLon: real)

  function InArea(p: Point, area: Area): Outcome<bool> {
    if area.polygon == [] then IndexError else Value(EvenOdd(p, area.polygon))
  }

  /** First area, in list order, that contains the point; an empty polygon met before that raises. */
  function AnyArea(p: Point, areas: seq<Area>): Outcome<bool> {
    if areas == [] then Value(false)
    else if InArea(p, areas[0]) == Value(false) then AnyArea(p, areas[1..])
    else InArea(p, areas[0])
  }

  function Accepts(p: Point, includes: seq<Area>, excludes: seq<Area>): Outcome<bool> {
    match AnyArea(p, excludes)
    case IndexError => IndexError
    case Value(true) => Value(false)
    case Value(false) => if includes == [] then Value(true) else AnyArea(p, includes)
  }

  /** The accepted coordinates in order; one raising coordinate loses the whole call. */
  function Filtered(coords: seq<Point>, includes: seq<Area>, excludes: seq<Area>): Outcome<seq<Point>> {
    if coords == [] then Value([])
    else
      var init, last := coords[..|coords| - 1], coords[|coords| - 1];
      match Filtered(init, includes, excludes)
      case IndexError => IndexError
      case Value(kept) =>
        match Accepts(last, includes, excludes)
        case IndexError => IndexError
        case Value(ok) => Value(if ok then kept + [last] else kept)
  }

  predicate Contains(area: Area, p: Point) {
    area.polygon != [] && EvenOdd(p, area.polygon)
  }

  class GeofenceHelper {
    var geofencedAreas: seq<Area>
    var excludedAreas: seq<Area>

    constructor (includes: seq<Area>, excludes: seq<Area>)
      ensures geofencedAreas == includes && excludedAreas == excludes
    {
      geofencedAreas, excludedAreas := includes, excludes;
    }

    /** The box over all include fences, started from the inverted box of the whole globe. */
    method GetPolygonFromFence() returns (box: Box)
      ensures box == FenceBox(geofencedAreas)
    {
      box := GLOBE_INVERTED;
      for i := 0 to |geofencedAreas|
        invariant box == FenceBox(geofencedAreas[..i])
      {
        var polygon := geofencedAreas[i].polygon;
        assert geofencedAreas[..i + 1][..i] == geofencedAreas[..i];
        for j := 0 to |polygon|
          invariant box == Widened(FenceBox(geofencedAreas[..i]), polygon[..j])
        {
          var fence := polygon[j];
          assert polygon[..j + 1][..j] == polygon[..j];
          box := Box(Min(fence.lat, box.minLat), Min(fence.lon, box.minLon),
                     Max(fence.lat, box.maxLat), Max(fence.lon, box.maxLon));
        }
        assert polygon[..|polygon|] == polygon;
      }
      assert geofencedAreas[..|geofencedAreas|] == geofencedAreas;
    }

    method InAreaTest(coordinate: Point, area: Area) returns (r: Outcome<bool>)
      ensures r == InArea(coordinate, area)
    {
      r := IsPointInPolygonCustom(coordinate, area.polygon);
    }

    method IsExcluded(coordinate: Point) returns (r: Outcome<bool>)
      ensures r == AnyArea(coordinate, excludedAreas)
    {
      for i := 0 to |excludedAreas|
        invariant AnyArea(coordinate, excludedAreas) == AnyArea(coordinate, excludedAreas[i..])
      {
        var inside := InAreaTest(coordinate, excludedAreas[i]);
        if inside != Value(false) {
          return inside;
        }
      }
      return Value(false);
    }

    method IsCoordInsideIncludeGeofence(coordinate: Point) returns (r: Outcome<bool>)
      ensures r == Accepts(coordinate, geofencedAreas, excludedAreas)
    {
      var excluded := IsExcluded(coordinate);
      match excluded
      case IndexError => return IndexError;
      case Value(true) => return Value(false);
      case Value(false) =>
        if geofencedAreas == [] {
          return Value(true);
        }
        for i := 0 to |geofencedAreas|
          invariant AnyArea(coordinate, geofencedAreas) == AnyArea(coordinate, geofencedAreas[i..])
        {
          var inside := InAreaTest(coordinate, geofencedAreas[i]);
          if inside != Value(false) {
            return inside;
          }
        }
        return Value(false);
    }

    /** The filter repeats the membership test inline, with a `break` at the first hit. */
    method GetGeofencedCoordinates(coordinates: seq<Point>) returns (r: Outcome<seq<Point>>)
      ensures r == Filtered(coordinates, geofencedAreas, excludedAreas)
    {
      var geofenced: seq<Point> := [];
      for i := 0 to |coordinates|
        invariant Filtered(coordinates[..i], geofencedAreas, excludedAreas) == Value(geofenced)
      {
        var coord := coordinates[i];
        FilteredExtends(coordinates, i, geofencedAreas, excludedAreas);
        assert coordinates[..i + 1][..i] == coordinates[..i];
        var excluded := IsExcluded(coord);
        match excluded
        case IndexError => return IndexError;
        case Value(true) => continue;
        case Value(false) =>
          if geofencedAreas == [] {
            geofenced := geofenced + [coord];
          } else {
            ghost var before := geofenced;
            for k := 0 to |geofencedAreas|
              invariant geofenced == before
              invariant AnyArea(coord, geofencedAreas) == AnyArea(coord, geofencedAreas[k..])
            {
              var inside := InAreaTest(coord, geofencedAreas[k]);
              match inside
              case IndexError => return IndexError;
              case Value(true) =>
                geofenced := geofenced + [coord];
                break;
              case Value(false) =>
            }
          }
      }
      assert coordinates[..|coordinates|] == coordinates;
      return Value(geofenced);
    }
  }

  // ---------------------------------------------------------------- the filter

  /** A raise on a prefix is a raise of the whole call. */
  lemma {:induction false} FilteredExtends(coords: seq<Point>, i: nat, includes: seq<Area>, excludes: seq<Area>)
    requires i < |coords|
    ensures Accepts(coords[i], includes, excludes).IndexError?
        ==> Filtered(coords, includes, excludes).IndexError?
    decreases |coords| - i
  {
    if i < |coords| - 1 && Accepts(coords[i], includes, excludes).IndexError? {
      FilteredRaises(coords, i, |coords|, includes, excludes);
      assert coords[..|coords|] == coords;
    }
  }

  lemma {:induction false} FilteredRaises(coords: seq<Point>, i: nat, n: nat, includes: seq<Area>, excludes: seq<Area>)
    requires i < n <= |coords|
    requires Accepts(coords[i], includes, excludes).IndexError?
    ensures Filtered(coords[..n], includes, excludes).IndexError?
    decreases n
  {
    assert coords[..n][..n - 1] == coords[..n - 1];
    if i < n - 1 {
      FilteredRaises(coords, i, n - 1, includes, excludes);
    }
  }

  /** Membership is order-free as long as nothing raises, and a raise needs an empty polygon that
      no containing area precedes. */
  lemma {:induction false} AnyAreaMeaning(p: Point, areas: seq<Area>)
    ensures AnyArea(p, areas) == Value(true)
        ==> exists a :: a in areas && Contains(a, p)
    ensures AnyArea(p, areas) == Value(false)
        <==> forall a :: a in areas ==> a.polygon != [] && !Contains(a, p)
    ensures AnyArea(p, areas).IndexError?
        <==> exists i :: 0 <= i < |areas| && areas[i].polygon == [] && forall j :: 0 <= j < i ==> !Contains(areas[j], p)
  {
    hide EvenOdd;
    if areas != [] {
      var rest := areas[1..];
      AnyAreaMeaning(p, rest);
      assert forall a :: a in areas <==> a == areas[0] || a in rest;
      if AnyArea(p, areas).IndexError? {
        if areas[0].polygon != [] {
          var i :| 0 <= i < |rest| && rest[i].polygon == [] && forall j :: 0 <= j < i ==> !Contains(rest[j], p);
          assert areas[i + 1].polygon == [] && forall j :: 0 <= j < i + 1 ==> !Contains(areas[j], p) by {
            forall j | 0 <= j < i + 1 ensures !Contains(areas[j], p) {
              if j > 0 { assert areas[j] == rest[j - 1]; }
            }
          }
        }
      }
      if i :| 0 <= i < |areas| && areas[i].polygon == [] && forall j :: 0 <= j < i ==> !Contains(areas[j], p) {
        if i > 0 {
          assert rest[i - 1].polygon == [] && forall j :: 0 <= j < i - 1 ==> !Contains(rest[j], p) by {
            forall j | 0 <= j < i - 1 ensures !Contains(rest[j], p) {
              assert rest[j] == areas[j + 1];
            }
          }
          assert !Contains(areas[0], p);
        }
      }
    }
  }

  /** A helper whose polygons all have vertices accepts exactly the points in no exclude fence
      and, when there are include fences, in at least one of them. */
  lemma AcceptsMeaning(p: Point, includes: seq<Area>, excludes: seq<Area>)
    requires forall a :: a in includes + excludes ==> a.polygon != []
    ensures Accepts(p, includes, excludes) ==
            Value((forall a :: a in excludes ==> !Contains(a, p))
                  && (includes == [] || exists a :: a in includes && Contains(a, p)))
  {
    forall a | a in excludes || a in includes ensures a.polygon != [] {
      assert a in includes + excludes;
    }
    AnyAreaIsExists(p, excludes);
    AnyAreaIsExists(p, includes);
  }

  /** Some fence has no vertices, and no fence before it contains the point. */
  ghost predicate MeetsEmpty(p: Point, areas: seq<Area>) {
    exists i :: 0 <= i < |areas| && areas[i].polygon == [] && forall j :: 0 <= j < i ==> !Contains(areas[j], p)
  }

  /** Judging a point raises exactly when the search meets a fence without vertices: among the exclude fences,
      or, for a point in none of them, among the include fences. */
  lemma AcceptsRaisesIff(p: Point, includes: seq<Area>, excludes: seq<Area>)
    ensures Accepts(p, includes, excludes).IndexError? <==>
              MeetsEmpty(p, excludes) || ((forall a :: a in excludes ==> !Contains(a, p)) && MeetsEmpty(p, includes))
  {
    AnyAreaMeaning(p, excludes);
    AnyAreaMeaning(p, includes);
    hide AnyArea;
    hide Contains;
  }

  lemma AnyAreaIsExists(p: Point, areas: seq<Area>)
    requires forall a :: a in areas ==> a.polygon != []
    ensures AnyArea(p, areas) == Value(exists a :: a in areas && Contains(a, p))
  {
    AnyAreaMeaning(p, areas);
    match AnyArea(p, areas)
    case IndexError => assert false;
    case Value(b) =>
      if b {
        assert exists a :: a in areas && Contains(a, p);
      } else {
        assert forall a :: a in areas ==> !Contains(a, p);
      }
  }

  /** `at` picks coordinates at rising positions, and they are `kept`. */
  predicate PicksOut(at: seq<nat>, kept: seq<Point>, coords: seq<Point>) {
    && |at| == |kept|
    && (forall i :: 0 <= i < |at| ==> at[i] < |coords| && kept[i] == coords[at[i]])
    && (forall i, j :: 0 <= i < j < |at| ==> at[i] < at[j])
  }

  ghost predicate InOrder(kept: seq<Point>, coords: seq<Point>) { exists at :: PicksOut(at, kept, coords) }

  lemma {:induction false} FilteredInOrder(coords: seq<Point>, includes: seq<Area>, excludes: seq<Area>)
    ensures Filtered(coords, includes, excludes).Value?
        ==> InOrder(Filtered(coords, includes, excludes).value, coords)
  {
    hide Accepts;
    if coords == [] {
      assert PicksOut([], [], coords);
    } else if Filtered(coords, includes, excludes).Value? {
      var init := coords[..|coords| - 1];
      FilteredInOrder(init, includes, excludes);
      var kept, all := Filtered(init, includes, excludes).value, Filtered(coords, includes, excludes).value;
      assert all == kept || all == kept + [coords[|coords| - 1]];
      hide Filtered;
      ExtendsInOrder(coords, kept);
    }
  }

  /** One more coordinate, kept or not. */
  lemma ExtendsInOrder(coords: seq<Point>, kept: seq<Point>)
    requires coords != [] && InOrder(kept, coords[..|coords| - 1])
    ensures InOrder(kept, coords) && InOrder(kept + [coords[|coords| - 1]], coords)
  {
    var at :| PicksOut(at, kept, coords[..|coords| - 1]);
    assert PicksOut(at, kept, coords);
    var last: nat := |coords| - 1;
    var longer: seq<nat> := at + [last];
    assert PicksOut(longer, kept + [coords[last]], coords);
  }

  /** The result of the filter: how often a coordinate occurs is decided by `Accepts` alone, what is
      kept keeps its order, and filtering again changes nothing. */
  lemma {:induction false} FilteredMeaning(coords: seq<Point>, includes: seq<Area>, excludes: seq<Area>)
    ensures Filtered(coords, includes, excludes).IndexError?
        <==> exists c :: c in coords && Accepts(c, includes, excludes).IndexError?
    ensures Filtered(coords, includes, excludes).Value? ==>
              var kept := Filtered(coords, includes, excludes).value;
              && (forall c :: multiset(kept)[c]
                   == if Accepts(c, includes, excludes) == Value(true) then multiset(coords)[c] else 0)
              && InOrder(kept, coords)
              && Filtered(kept, includes, excludes) == Value(kept)
  {
    hide Accepts;
    FilteredInOrder(coords, includes, excludes);
    hide InOrder;
    if coords != [] {
      var init, last := coords[..|coords| - 1], coords[|coords| - 1];
      FilteredMeaning(init, includes, excludes);
      assert coords == init + [last];
      assert forall c :: c in coords <==> c in init || c == last;
      if Filtered(coords, includes, excludes).Value? {
        var kept := Filtered(init, includes, excludes).value;
        assert (kept + [last])[..|kept|] == kept;
      }
    }
  }

  // ---------------------------------------------------------------- the bounding box

  const GLOBE_INVERTED := Box(90.0, 180.0, -90.0, -180.0)

  function Widened(box: Box, polygon: seq<Point>): Box {
    if polygon == [] then box
    else
      var b := Widened(box, polygon[..|polygon| - 1]);
      var v := polygon[|polygon| - 1];
      Box(Min(v.lat, b.minLat), Min(v.lon, b.minLon), Max(v.lat, b.maxLat), Max(v.lon, b.maxLon))
  }

  function FenceBox(areas: seq<Area>): Box {
    if areas == [] then GLOBE_INVERTED
    else Widened(FenceBox(areas[..|areas| - 1]), areas[|areas| - 1].polygon)
  }

  predicate InBox(p: Point, box: Box) {
    box.minLat <= p.lat <= box.maxLat && box.minLon <= p.lon <= box.maxLon
  }

  predicate BoxWithin(inner: Box, outer: Box) {
    && outer.minLat <= inner.minLat && inner.maxLat <= outer.maxLat
    && outer.minLon <= inner.minLon && inner.maxLon <= outer.maxLon
  }

  predicate BoxBounds(box: Box, polygon: seq<Point>) {
    forall v :: v in polygon ==> InBox(v, box)
  }

  lemma {:induction false} WidenedBounds(box: Box, polygon: seq<Point>)
    ensures BoxWithin(box, Widened(box, polygon)) && BoxBounds(Widened(box, polygon), polygon)
  {
    if polygon != [] {
      WidenedBounds(box, polygon[..|polygon| - 1]);
      assert forall v :: v in polygon ==> v in polygon[..|polygon| - 1] || v == polygon[|polygon| - 1];
    }
  }

  lemma {:induction false} FenceBoxBounds(areas: seq<Area>)
    ensures forall a :: a in areas ==> BoxBounds(FenceBox(areas), a.polygon)
  {
    if areas != [] {
      var init, last := areas[..|areas| - 1], areas[|areas| - 1];
      FenceBoxBounds(init);
      WidenedBounds(FenceBox(init), last.polygon);
      forall a | a in areas ensures BoxBounds(FenceBox(areas), a.polygon) {
        assert a in init || a == last;
      }
    }
  }

  /** Some vertex of the fences has this latitude, or longitude. */
  ghost predicate HasLat(areas: seq<Area>, lat: real) {
    exists a, v :: a in areas && v in a.polygon && v.lat == lat
  }

  ghost predicate HasLon(areas: seq<Area>, lon: real) {
    exists a, v :: a in areas && v in a.polygon && v.lon == lon
  }

  /** Every side of the box is that of the inverted globe or touches a vertex. */
  ghost predicate BoxTight(areas: seq<Area>, box: Box) {
    && (box.minLat == 90.0 || HasLat(areas, box.minLat)) && (box.maxLat == -90.0 || HasLat(areas, box.maxLat))
    && (box.minLon == 180.0 || HasLon(areas, box.minLon)) && (box.maxLon == -180.0 || HasLon(areas, box.maxLon))
  }

  lemma {:induction false} WidenedTight(areas: seq<Area>, box: Box, a: Area, n: nat)
    requires BoxTight(areas, box) && a in areas && n <= |a.polygon|
    ensures BoxTight(areas, Widened(box, a.polygon[..n]))
  {
    if n > 0 {
      WidenedTight(areas, box, a, n - 1);
      var v := a.polygon[n - 1];
      assert a.polygon[..n][..n - 1] == a.polygon[..n - 1];
      assert v in a.polygon && HasLat(areas, v.lat) && HasLon(areas, v.lon);
    } else {
      assert a.polygon[..0] == [];
    }
  }

  /** The box is the smallest one that has every vertex of every include fence, but lies around the
      inverted globe: with fences on the globe that is their common bounding box. */
  lemma {:induction false} FenceBoxMeaning(areas: seq<Area>)
    ensures BoxTight(areas, FenceBox(areas)) && BoxWithin(GLOBE_INVERTED, FenceBox(areas))
    ensures forall a :: a in areas ==> BoxBounds(FenceBox(areas), a.polygon)
  {
    if areas != [] {
      var init, last := areas[..|areas| - 1], areas[|areas| - 1];
      FenceBoxMeaning(init);
      assert areas == init + [last];
      var box := FenceBox(init);
      TightInMore(init, areas, box);
      WidenedTight(areas, box, last, |last.polygon|);
      assert last.polygon[..|last.polygon|] == last.polygon;
      WidenedBounds(box, last.polygon);
      hide Widened;
      hide BoxTight;
    }
    FenceBoxBounds(areas);
  }

  lemma TightInMore(some: seq<Area>, areas: seq<Area>, box: Box)
    requires BoxTight(some, box) && forall a :: a in some ==> a in areas
    ensures BoxTight(areas, box)
  {}

  /** With at least one include fence, dropping the points outside the box first never drops a
      point the filter would accept. */
  lemma PrefilterSound(p: Point, includes: seq<Area>, excludes: seq<Area>)
    requires includes != []
    requires Accepts(p, includes, excludes) == Value(true)
    ensures InBox(p, FenceBox(includes))
  {
    AnyAreaMeaning(p, includes);
    var a :| a in includes && Contains(a, p);
    var box := FenceBox(includes);
    FenceBoxBounds(includes);
    if !InBox(p, box) {
      BoxRejectionSound(a.polygon, Point(box.minLat, box.minLon), Point(box.maxLat, box.maxLon), p);
    }
  }

  /** North of every vertex of every fence. */
  lemma {:induction false} NorthOfAll(areas: seq<Area>) returns (p: Point)
    requires forall a :: a in areas ==> a.polygon != []
    ensures forall a :: a in areas ==> !Contains(a, p)
  {
    var box := FenceBox(areas);
    p := Point(box.maxLat + 1.0, 0.0);
    FenceBoxBounds(areas);
    forall a | a in areas ensures !Contains(a, p) {
      BoxRejectionSound(a.polygon, Point(box.minLat, box.minLon), Point(box.maxLat, box.maxLon), p);
    }
  }

  /** The pre-filter is lossless exactly when there is an include fence: without one the box is
      the inverted globe and drops every point, while the filter still accepts some. */
  lemma PrefilterLosslessIff(includes: seq<Area>, excludes: seq<Area>)
    requires forall a :: a in excludes ==> a.polygon != []
    ensures (forall p :: Accepts(p, includes, excludes) == Value(true) ==> InBox(p, FenceBox(includes)))
        <==> includes != []
  {
    if includes != [] {
      forall p | Accepts(p, includes, excludes) == Value(true) ensures InBox(p, FenceBox(includes)) {
        PrefilterSound(p, includes, excludes);
      }
    } else {
      var p := NorthOfAll(excludes);
      AnyAreaMeaning(p, excludes);
      assert Accepts(p, includes, excludes) == Value(true) && !InBox(p, FenceBox(includes));
    }
  }
}
