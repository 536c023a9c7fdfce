/**
 * `checkRouteIntersectionWithWMS` (utils/checkRouteIntersectionWithWMS.js,
 * copied in App.jsx): ask each toll layer, in order, for the features that
 * intersect the route; at the first layer answering with a non-empty feature
 * list, add up the consecutive distances of every MultiPolygon's flattened
 * coordinates and stop.
 */
module RouteIntersection {
  import opened Wrappers
  import opened Geo
  import opened Wkt

  /** A GeoJSON position `[longitude, latitude]`. */
  datatype Position = Position(lon: real, lat: real)

  /**
   * `feature.geometry`: its `type` and, for a MultiPolygon, its polygons of
   * rings of positions (other geometry types never have their coordinates read).
   */
  datatype Geometry = Geometry(geometryType: string, coordinates: seq<seq<seq<Position>>>)

  /** A feature; a `null` geometry makes reading `geometry.type` throw. */
  datatype Feature = Feature(geometry: Option<Geometry>)

  /**
   * One layer's answer: `Failed` when fetching, reading the body, reading the
   * `Content-Type` header or parsing the JSON throws; `NonJson` when the
   * content type is not JSON; otherwise the `features` (empty when absent).
   */
  datatype LayerResponse = Failed | NonJson | Json(features: seq<Feature>)

  /** The feature service: the answer for a layer name and a WKT filter geometry. */
  type FeatureService = (string, string) -> LayerResponse

  /** `{ onTollRoad, totalIntersectionDistance }`. */
  datatype TollCheck = TollCheck(onTollRoad: bool, totalIntersectionDistance: real)

  /** The toll layers, in the order they are asked. */
  const TollLayers: seq<string> := ["ne:D2_Polygon", "ne:D4_Polygon"]

  const MultiPolygon: string := "MultiPolygon"

  /** A layer whose answer stops the scan: JSON with at least one feature. */
  predicate Matching(r: LayerResponse) {
    r.Json? && |r.features| > 0
  }

  /** `coordinates.flat(2)`: every position of every ring of every polygon, in order. */
  function Flatten(polygons: seq<seq<seq<Position>>>): seq<Position> {
    if polygons == [] then [] else FlattenRings(polygons[0]) + Flatten(polygons[1..])
  }

  function FlattenRings(rings: seq<seq<Position>>): seq<Position> {
    if rings == [] then [] else rings[0] + FlattenRings(rings[1..])
  }

  /** The distance from position i to position i + 1. */
  function Step(ps: seq<Position>, i: nat, h: Haversine): real
    requires i + 1 < |ps|
  {
    h(ps[i].lat, ps[i].lon, ps[i + 1].lat, ps[i + 1].lon)
  }

  /** The sum of the first k consecutive distances. */
  function PositionsLength(ps: seq<Position>, k: nat, h: Haversine): real
    requires k <= PairCount(ps)
  {
    if k == 0 then 0.0 else PositionsLength(ps, k - 1, h) + Step(ps, k - 1, h)
  }

  /** What one feature adds: its flattened length for a MultiPolygon, nothing otherwise. */
  function FeatureDistance(g: Geometry, h: Haversine): real {
    if g.geometryType == MultiPolygon then
      var all := Flatten(g.coordinates);
      PositionsLength(all, PairCount(all), h)
    else 0.0
  }

  /** The running sum over some features and whether a feature without geometry threw. */
  datatype FeatureSum = FeatureSum(sum: real, threw: bool)

  /** The features loop over the first k features; it ends at the first one that throws. */
  function SumFeatures(fs: seq<Feature>, k: nat, h: Haversine): FeatureSum
    requires k <= |fs|
  {
    if k == 0 then FeatureSum(0.0, false)
    else
      var r := SumFeatures(fs, k - 1, h);
      if r.threw then r
      else
        match fs[k - 1].geometry
        case None => FeatureSum(r.sum, true)
        case Some(g) => FeatureSum(r.sum + FeatureDistance(g, h), false)
  }

  /** The scan over the first k layers, and whether it has already stopped (`break`). */
  datatype ScanState = ScanState(onTollRoad: bool, total: real, stopped: bool)

  /**
   * The scan over the first k layers: it only stops on the toll road, and
   * before any layer matches it has neither stopped nor measured anything.
   */
  function ScanLayers(layers: seq<string>, k: nat, wkt: string, wfs: FeatureService, h: Haversine): (s: ScanState)
    requires k <= |layers|
    ensures s.stopped ==> s.onTollRoad
    ensures !s.onTollRoad ==> s.total == 0.0 && !s.stopped
  {
    if k == 0 then ScanState(false, 0.0, false)
    else
      var s := ScanLayers(layers, k - 1, wkt, wfs, h);
      var response := wfs(layers[k - 1], wkt);
      if s.stopped || !Matching(response) then s
      else
        var r := SumFeatures(response.features, |response.features|, h);
        ScanState(true, s.total + r.sum, !r.threw)
  }

  /**
   * What `checkRouteIntersectionWithWMS(polyline)` resolves to: on the toll
   * road exactly when some layer answers with features, and 0 otherwise.
   */
  function CheckResult(latLngs: seq<LatLng>, layers: seq<string>, wfs: FeatureService,
                       h: Haversine, num: NumberText): (r: TollCheck)
    ensures r.onTollRoad <==>
      exists i :: 0 <= i < |layers| && Matching(wfs(layers[i], LineString(latLngs, num)))
    ensures !r.onTollRoad ==> r.totalIntersectionDistance == 0.0
  {
    var wkt := LineString(latLngs, num);
    var s := ScanLayers(layers, |layers|, wkt, wfs, h);
    ScanMatchesSomeLayer(layers, |layers|, wkt, wfs, h);
    TollCheck(s.onTollRoad, s.total)
  }

  /** The innermost loop: the consecutive distances of one feature's flattened coordinates. */
  method FeatureIntersectionDistance(allCoordinates: seq<Position>, h: Haversine) returns (d: real)
    ensures d == PositionsLength(allCoordinates, PairCount(allCoordinates), h)
  {
    d := 0.0;
    var i := 0;
    while i < |allCoordinates| - 1
      invariant 0 <= i <= PairCount(allCoordinates)
      invariant d == PositionsLength(allCoordinates, i, h)
    {
      var p1 := allCoordinates[i];
      var p2 := allCoordinates[i + 1];
      d := d + h(p1.lat, p1.lon, p2.lat, p2.lon);
      i := i + 1;
    }
  }

  /**
   * The features loop of one matching layer: the distance added before the
   * loop ends, and whether it ended by reading the type of a missing geometry.
   */
  method LayerFeaturesDistance(features: seq<Feature>, h: Haversine) returns (sum: real, threw: bool)
    ensures FeatureSum(sum, threw) == SumFeatures(features, |features|, h)
  {
    sum := 0.0;
    threw := false;
    var f := 0;
    while f < |features| && !threw
      invariant 0 <= f <= |features|
      invariant SumFeatures(features, f, h) == FeatureSum(sum, threw)
      invariant threw ==> SumFeatures(features, |features|, h) == SumFeatures(features, f, h)
    {
      match features[f].geometry {
        case None =>
          threw := true;
          SumFeaturesAfterThrow(features, f + 1, h);
        case Some(g) =>
          assert SumFeatures(features, f + 1, h) == FeatureSum(sum + FeatureDistance(g, h), false);
          if g.geometryType == MultiPolygon {
            var allCoordinates := Flatten(g.coordinates);
            var featureIntersectionDistance := FeatureIntersectionDistance(allCoordinates, h);
            sum := sum + featureIntersectionDistance;
          }
      }
      f := f + 1;
    }
  }

  /**
   * The layer scan. `onTollRoad` holds exactly when some layer answers with
   * features, and without a match nothing is measured.
   */
  method CheckRouteIntersectionWithWMS(latLngs: seq<LatLng>, layers: seq<string>, wfs: FeatureService,
                                       h: Haversine, num: NumberText)
    returns (result: TollCheck)
    ensures result == CheckResult(latLngs, layers, wfs, h, num)
    ensures result.onTollRoad <==>
      exists i :: 0 <= i < |layers| && Matching(wfs(layers[i], LineString(latLngs, num)))
    ensures !result.onTollRoad ==> result.totalIntersectionDistance == 0.0
  {
    var wktLineString := LineString(latLngs, num);
    result := ScanTollLayers(layers, wktLineString, wfs, h);
  }

  /**
   * The `for` loop over the layers with a given filter geometry: the first
   * layer answering with features decides, unless one of its features lacks
   * a geometry, in which case the scan goes on with the sum so far.
   */
  method ScanTollLayers(layers: seq<string>, wktLineString: string, wfs: FeatureService, h: Haversine)
    returns (result: TollCheck)
    ensures var s := ScanLayers(layers, |layers|, wktLineString, wfs, h);
      result == TollCheck(s.onTollRoad, s.total)
    ensures result.onTollRoad <==>
      exists i :: 0 <= i < |layers| && Matching(wfs(layers[i], wktLineString))
  {
    var onTollRoad := false;
    var totalIntersectionDistance := 0.0;
    var k := 0;
    while k < |layers|
      invariant 0 <= k <= |layers|
      invariant ScanLayers(layers, k, wktLineString, wfs, h) ==
                ScanState(onTollRoad, totalIntersectionDistance, false)
    {
      var response := wfs(layers[k], wktLineString);
      if response.Json? && |response.features| > 0 {
        onTollRoad := true;
        var sum, threw := LayerFeaturesDistance(response.features, h);
        totalIntersectionDistance := totalIntersectionDistance + sum;
        if !threw {
          ScanStaysStopped(layers, k + 1, |layers|, wktLineString, wfs, h);
          break;
        }
      }
      k := k + 1;
    }
    result := TollCheck(onTollRoad, totalIntersectionDistance);
    ScanMatchesSomeLayer(layers, |layers|, wktLineString, wfs, h);
  }

  lemma {:induction false} SumFeaturesAfterThrow(fs: seq<Feature>, k: nat, h: Haversine)
    requires 0 < k <= |fs|
    requires SumFeatures(fs, k, h).threw
    ensures SumFeatures(fs, |fs|, h) == SumFeatures(fs, k, h)
    decreases |fs| - k
  {
    if k < |fs| {
      SumFeaturesAfterThrow(fs, k + 1, h);
    }
  }

  /** Once the scan has stopped, later layers are never asked. */
  lemma {:induction false} ScanStaysStopped(layers: seq<string>, k: nat, n: nat, wkt: string,
                                            wfs: FeatureService, h: Haversine)
    requires k <= n <= |layers|
    requires ScanLayers(layers, k, wkt, wfs, h).stopped
    ensures ScanLayers(layers, n, wkt, wfs, h) == ScanLayers(layers, k, wkt, wfs, h)
    decreases n - k
  {
    if k < n {
      ScanStaysStopped(layers, k, n - 1, wkt, wfs, h);
    }
  }

  /** The scan reports the toll road exactly when some layer among the first k answers with features. */
  lemma {:induction false} ScanMatchesSomeLayer(layers: seq<string>, k: nat, wkt: string,
                                                wfs: FeatureService, h: Haversine)
    requires k <= |layers|
    ensures ScanLayers(layers, k, wkt, wfs, h).onTollRoad <==>
            exists i :: 0 <= i < k && Matching(wfs(layers[i], wkt))
  {
    if k > 0 {
      ScanMatchesSomeLayer(layers, k - 1, wkt, wfs, h);
      var s := ScanLayers(layers, k - 1, wkt, wfs, h);
      if s.onTollRoad {
        var i :| 0 <= i < k - 1 && Matching(wfs(layers[i], wkt));
        assert 0 <= i < k && Matching(wfs(layers[i], wkt));
      }
    }
  }

  /**
   * The short circuit: when layer i is the first to answer with features and
   * none of them lacks a geometry, the result is that layer's sum alone,
   * whatever the later layers would answer.
   */
  lemma {:induction false} FirstMatchingLayerDecides(layers: seq<string>, i: nat, wkt: string,
                                                     wfs: FeatureService, h: Haversine)
    requires i < |layers|
    requires forall j :: 0 <= j < i ==> !Matching(wfs(layers[j], wkt))
    requires Matching(wfs(layers[i], wkt))
    requires var fs := wfs(layers[i], wkt).features; !SumFeatures(fs, |fs|, h).threw
    ensures var fs := wfs(layers[i], wkt).features;
      ScanLayers(layers, |layers|, wkt, wfs, h) == ScanState(true, SumFeatures(fs, |fs|, h).sum, true)
  {
    NothingBeforeFirstMatch(layers, i, wkt, wfs, h);
    ScanStaysStopped(layers, i + 1, |layers|, wkt, wfs, h);
  }

  lemma {:induction false} NothingBeforeFirstMatch(layers: seq<string>, k: nat, wkt: string,
                                                   wfs: FeatureService, h: Haversine)
    requires k <= |layers|
    requires forall j :: 0 <= j < k ==> !Matching(wfs(layers[j], wkt))
    ensures ScanLayers(layers, k, wkt, wfs, h) == ScanState(false, 0.0, false)
  {
    if k > 0 {
      NothingBeforeFirstMatch(layers, k - 1, wkt, wfs, h);
    }
  }

  /** Only MultiPolygons count, and one with at most one flattened position adds 0. */
  lemma FeatureDistanceZero(g: Geometry, h: Haversine)
    requires g.geometryType != MultiPolygon || |Flatten(g.coordinates)| <= 1
    ensures FeatureDistance(g, h) == 0.0
  {
  }

  /** With nonnegative distances, every feature adds a nonnegative amount. */
  lemma {:induction false} PositionsLengthNonnegative(ps: seq<Position>, k: nat, h: Haversine)
    requires k <= PairCount(ps)
    requires forall i :: 0 <= i < k ==> Step(ps, i, h) >= 0.0
    ensures PositionsLength(ps, k, h) >= 0.0
  {
    if k > 0 {
      PositionsLengthNonnegative(ps, k - 1, h);
    }
  }

  /** One polygon's rings in order: the first ring comes first, and a position is kept exactly when it is in some ring. */
  lemma {:induction false} FlattenRingsKeepsPositions(rings: seq<seq<Position>>)
    ensures |rings| > 0 ==> |FlattenRings(rings)| >= |rings[0]| && FlattenRings(rings)[..|rings[0]|] == rings[0]
    ensures forall p :: p in FlattenRings(rings) <==> exists j :: 0 <= j < |rings| && p in rings[j]
  {
    if rings != [] {
      FlattenRingsKeepsPositions(rings[1..]);
      assert FlattenRings(rings) == rings[0] + FlattenRings(rings[1..]);
      assert forall j :: 1 <= j < |rings| ==> rings[j] == rings[1..][j - 1];
    }
  }

  /** `.flat(2)` keeps exactly the positions of the rings of the polygons. */
  lemma {:induction false} FlattenKeepsPositions(polygons: seq<seq<seq<Position>>>)
    ensures forall p :: p in Flatten(polygons) <==>
      exists i, j :: 0 <= i < |polygons| && 0 <= j < |polygons[i]| && p in polygons[i][j]
  {
    if polygons != [] {
      FlattenKeepsPositions(polygons[1..]);
      FlattenRingsKeepsPositions(polygons[0]);
      assert Flatten(polygons) == FlattenRings(polygons[0]) + Flatten(polygons[1..]);
      assert forall i :: 1 <= i < |polygons| ==> polygons[i] == polygons[1..][i - 1];
    }
  }

  /** With nonnegative distances, a feature never adds a negative amount. */
  lemma FeatureDistanceNonnegative(g: Geometry, h: Haversine)
    requires forall i :: 0 <= i < PairCount(Flatten(g.coordinates)) ==> Step(Flatten(g.coordinates), i, h) >= 0.0
    ensures FeatureDistance(g, h) >= 0.0
  {
    if g.geometryType == MultiPolygon {
      PositionsLengthNonnegative(Flatten(g.coordinates), PairCount(Flatten(g.coordinates)), h);
    }
  }

  /** The features loop throws exactly when one of the features it reaches has no geometry. */
  lemma {:induction false} SumFeaturesThrows(fs: seq<Feature>, k: nat, h: Haversine)
    requires k <= |fs|
    ensures SumFeatures(fs, k, h).threw <==> exists j :: 0 <= j < k && fs[j].geometry.None?
  {
    if k > 0 {
      SumFeaturesThrows(fs, k - 1, h);
    }
  }

  /** Features that are all present but none a MultiPolygon add nothing. */
  lemma {:induction false} SumFeaturesWithoutMultiPolygons(fs: seq<Feature>, k: nat, h: Haversine)
    requires k <= |fs|
    requires forall j :: 0 <= j < k ==> fs[j].geometry.Some? && fs[j].geometry.value.geometryType != MultiPolygon
    ensures SumFeatures(fs, k, h) == FeatureSum(0.0, false)
  {
    if k > 0 {
      SumFeaturesWithoutMultiPolygons(fs, k - 1, h);
    }
  }
}
