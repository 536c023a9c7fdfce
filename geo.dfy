/**
 * GPS samples, the validity filter both copies of `startCarAnimation` apply,
 * and the consecutive-pair distances ("legs") they walk.
 */
module Geo {

  /** A sample as the dashboard holds it: `[gps_lat, gps_long, gps_timestamp]`. */
  datatype Coord = Coord(lat: real, lon: real, timestamp: int)

  /**
   * `haversineDistance(lat1, lon1, lat2, lon2)`. Its definition is not part of
   * this model, so every operation that measures takes it as a parameter.
   */
  type Haversine = (real, real, real, real) -> real

  /** Latitude in [-90, 90], longitude in [-180, 180], and not the (0, 0) no-fix sentinel. */
  predicate IsValidCoordinate(c: Coord) {
    -90.0 <= c.lat <= 90.0 && -180.0 <= c.lon <= 180.0 && !(c.lat == 0.0 && c.lon == 0.0)
  }

  /** `coordinates.filter(...)`: the valid samples, in input order. */
  function ValidCoordinates(cs: seq<Coord>): (r: seq<Coord>)
    ensures |r| <= |cs|
    ensures forall i :: 0 <= i < |r| ==> IsValidCoordinate(r[i])
    ensures forall c :: c in r <==> c in cs && IsValidCoordinate(c)
  {
    if cs == [] then []
    else
      var init := ValidCoordinates(cs[..|cs| - 1]);
      assert cs == cs[..|cs| - 1] + [cs[|cs| - 1]];
      if IsValidCoordinate(cs[|cs| - 1]) then init + [cs[|cs| - 1]] else init
  }

  /** The positions, in increasing order, of the samples the filter keeps. */
  function KeptIndices(cs: seq<Coord>): (ks: seq<nat>)
    ensures forall j :: 0 <= j < |ks| ==> ks[j] < |cs|
    ensures forall j, j' :: 0 <= j < j' < |ks| ==> ks[j] < ks[j']
    ensures forall i :: 0 <= i < |cs| ==> (i in ks <==> IsValidCoordinate(cs[i]))
  {
    if cs == [] then []
    else
      var init := KeptIndices(cs[..|cs| - 1]);
      if IsValidCoordinate(cs[|cs| - 1]) then init + [|cs| - 1] else init
  }

  /**
   * The filter keeps exactly the valid samples and keeps them in order: its
   * j-th output is the input at the j-th kept position.
   */
  lemma {:induction false} ValidCoordinatesInOrder(cs: seq<Coord>)
    ensures |ValidCoordinates(cs)| == |KeptIndices(cs)|
    ensures forall j :: 0 <= j < |KeptIndices(cs)| ==> ValidCoordinates(cs)[j] == cs[KeptIndices(cs)[j]]
  {
    if cs != [] {
      var init := cs[..|cs| - 1];
      ValidCoordinatesInOrder(init);
      forall j | 0 <= j < |KeptIndices(init)| ensures KeptIndices(init)[j] < |init| {}
    }
  }

  /** Filtering distributes over concatenation: no sample moves across another. */
  lemma {:induction false} ValidCoordinatesAppend(a: seq<Coord>, b: seq<Coord>)
    ensures ValidCoordinates(a + b) == ValidCoordinates(a) + ValidCoordinates(b)
  {
    if b == [] {
      assert a + b == a;
    } else {
      var b' := b[..|b| - 1];
      assert (a + b)[..|a + b| - 1] == a + b';
      ValidCoordinatesAppend(a, b');
    }
  }

  /** Filtering an already filtered trace changes nothing. */
  lemma {:induction false} ValidCoordinatesIdempotent(cs: seq<Coord>)
    ensures ValidCoordinates(ValidCoordinates(cs)) == ValidCoordinates(cs)
  {
    if cs != [] {
      var init := cs[..|cs| - 1];
      ValidCoordinatesIdempotent(init);
      var r := ValidCoordinates(init);
      if IsValidCoordinate(cs[|cs| - 1]) {
        ValidCoordinatesAppend(r, [cs[|cs| - 1]]);
        assert ValidCoordinates([cs[|cs| - 1]]) == [cs[|cs| - 1]] by {
          assert [cs[|cs| - 1]][..0] == [];
        }
      }
    }
  }

  /** Number of consecutive pairs `(v[i], v[i + 1])`: the trip loops run `i < v.length - 1`. */
  function PairCount<T>(v: seq<T>): nat {
    if |v| == 0 then 0 else |v| - 1
  }

  /** Distance of the pair `(v[i], v[i + 1])`. */
  function Leg(v: seq<Coord>, i: nat, h: Haversine): real
    requires i + 1 < |v|
  {
    h(v[i].lat, v[i].lon, v[i + 1].lat, v[i + 1].lon)
  }
}
