/**
 * The trip segmenter of `startCarAnimation` in App.jsx: after filtering, walk
 * the consecutive pairs of valid samples and record a numbered trip for every
 * pair farther apart than a threshold.
 */
module TripSegmenter {
  import opened Geo

  /** `{ tripName, from, to, distance }` as pushed onto `tripsArray`. */
  datatype Trip = Trip(tripName: string, from: Coord, to: Coord, distance: real)

  /** The threshold App.jsx compares against (its comment speaks of 1.5 km). */
  const SourceMinTripDistance: real := 0.0

  function DigitChar(d: nat): (c: char)
    requires d < 10
    ensures '0' <= c <= '9' && (c as int) - ('0' as int) == d
  {
    (('0' as int) + d) as char
  }

  function DigitValue(c: char): nat {
    if '0' <= c <= '9' then (c as int) - ('0' as int) else 0
  }

  /** JavaScript's decimal rendering of a counter, as in `${tripCounter}`. */
  function NatToDecimal(n: nat): (s: string)
    ensures 1 <= |s|
    ensures forall i :: 0 <= i < |s| ==> '0' <= s[i] <= '9'
    ensures n == 0 || s[0] != '0'
  {
    if n < 10 then [DigitChar(n)] else NatToDecimal(n / 10) + [DigitChar(n % 10)]
  }

  /** Reads a string of decimal digits back as a number. */
  function DecimalValue(s: string): nat {
    if s == [] then 0 else DecimalValue(s[..|s| - 1]) * 10 + DigitValue(s[|s| - 1])
  }

  lemma {:induction false} DecimalRoundTrip(n: nat)
    ensures DecimalValue(NatToDecimal(n)) == n
  {
    if n >= 10 {
      var s := NatToDecimal(n);
      assert s[..|s| - 1] == NatToDecimal(n / 10);
      DecimalRoundTrip(n / 10);
    }
  }

  /** `Trip ${k}`. */
  function TripName(k: nat): string {
    "Trip " + NatToDecimal(k)
  }

  /** Different counters give different names. */
  lemma TripNameInjective(m: nat, n: nat)
    requires TripName(m) == TripName(n)
    ensures m == n
  {
    assert NatToDecimal(m) == TripName(m)[5..];
    assert NatToDecimal(n) == TripName(n)[5..];
    DecimalRoundTrip(m);
    DecimalRoundTrip(n);
  }

  /**
   * The pairs among the first k whose distance exceeds the threshold, in
   * increasing order: the pairs that become trips.
   */
  function TripPairs(v: seq<Coord>, k: nat, minKm: real, h: Haversine): (ps: seq<nat>)
    requires k <= PairCount(v)
    ensures |ps| <= k
    ensures forall j :: 0 <= j < |ps| ==> ps[j] < k && Leg(v, ps[j], h) > minKm
    ensures forall j, j' :: 0 <= j < j' < |ps| ==> ps[j] < ps[j']
    ensures forall i {:trigger i in ps} :: 0 <= i < k ==> (i in ps <==> Leg(v, i, h) > minKm)
  {
    if k == 0 then []
    else
      var init := TripPairs(v, k - 1, minKm, h);
      if Leg(v, k - 1, h) > minKm then init + [k - 1] else init
  }

  /** The trip recorded for pair i when it is the n-th one recorded. */
  function TripAt(v: seq<Coord>, i: nat, n: nat, h: Haversine): Trip
    requires i + 1 < |v|
  {
    Trip(TripName(n), v[i], v[i + 1], Leg(v, i, h))
  }

  /** The trips recorded for the given pairs, the j-th one named `Trip j+1`. */
  function TripsFor(v: seq<Coord>, ps: seq<nat>, h: Haversine): (r: seq<Trip>)
    requires forall j :: 0 <= j < |ps| ==> ps[j] + 1 < |v|
    ensures |r| == |ps|
  {
    seq(|ps|, j requires 0 <= j < |ps| => TripAt(v, ps[j], j + 1, h))
  }

  /** Recording one more pair appends one trip and leaves the earlier ones alone. */
  lemma TripsForSnoc(v: seq<Coord>, ps: seq<nat>, i: nat, h: Haversine)
    requires forall j :: 0 <= j < |ps| ==> ps[j] + 1 < |v|
    requires i + 1 < |v|
    ensures TripsFor(v, ps + [i], h) == TripsFor(v, ps, h) + [TripAt(v, i, |ps| + 1, h)]
  {
  }

  /** The trips of a filtered trace: the j-th long pair becomes `Trip j+1`. */
  function Trips(v: seq<Coord>, minKm: real, h: Haversine): (r: seq<Trip>)
    ensures |r| <= PairCount(v)
    ensures forall j :: 0 <= j < |r| ==> r[j].tripName == TripName(j + 1) && r[j].distance > minKm
  {
    TripsFor(v, TripPairs(v, PairCount(v), minKm, h), h)
  }

  /** One more pair walked: one more trip when it is above the threshold, none otherwise. */
  lemma TripsStep(v: seq<Coord>, i: nat, minKm: real, h: Haversine)
    requires i < PairCount(v)
    ensures var ps := TripPairs(v, i, minKm, h);
      TripsFor(v, TripPairs(v, i + 1, minKm, h), h) ==
      TripsFor(v, ps, h) + (if Leg(v, i, h) > minKm then [Trip(TripName(|ps| + 1), v[i], v[i + 1], Leg(v, i, h))] else [])
  {
    var ps := TripPairs(v, i, minKm, h);
    if Leg(v, i, h) > minKm {
      assert TripPairs(v, i + 1, minKm, h) == ps + [i];
      TripsForSnoc(v, ps, i, h);
    } else {
      assert TripPairs(v, i + 1, minKm, h) == ps;
    }
  }

  /** The trips recorded after walking the first k pairs, built one pair at a time. */
  function TripsUpTo(v: seq<Coord>, k: nat, minKm: real, h: Haversine): seq<Trip>
    requires k <= PairCount(v)
  {
    if k == 0 then []
    else
      var r := TripsUpTo(v, k - 1, minKm, h);
      if Leg(v, k - 1, h) > minKm then r + [Trip(TripName(|r| + 1), v[k - 1], v[k], Leg(v, k - 1, h))] else r
  }

  /** Building pair by pair gives the trips of the pairs above the threshold. */
  lemma {:induction false} TripsUpToPairs(v: seq<Coord>, k: nat, minKm: real, h: Haversine)
    requires k <= PairCount(v)
    ensures TripsUpTo(v, k, minKm, h) == TripsFor(v, TripPairs(v, k, minKm, h), h)
  {
    if k > 0 {
      var r := TripsUpTo(v, k - 1, minKm, h);
      var ps := TripPairs(v, k - 1, minKm, h);
      TripsUpToPairs(v, k - 1, minKm, h);
      assert |r| == |ps|;
      TripsStep(v, k - 1, minKm, h);
      var tail := if Leg(v, k - 1, h) > minKm then [Trip(TripName(|ps| + 1), v[k - 1], v[k], Leg(v, k - 1, h))] else [];
      assert TripsUpTo(v, k, minKm, h) == r + tail;
    }
  }

  /** The j-th trip runs from v[p] to v[p + 1] where p is the j-th pair above the threshold. */
  lemma TripsAtPairs(v: seq<Coord>, minKm: real, h: Haversine)
    ensures var ps := TripPairs(v, PairCount(v), minKm, h);
      var r := Trips(v, minKm, h);
      |r| == |ps| &&
      forall j :: 0 <= j < |r| ==> r[j] == Trip(TripName(j + 1), v[ps[j]], v[ps[j] + 1], Leg(v, ps[j], h))
  {
    var ps := TripPairs(v, PairCount(v), minKm, h);
    var r := Trips(v, minKm, h);
    forall j | 0 <= j < |r|
      ensures r[j] == Trip(TripName(j + 1), v[ps[j]], v[ps[j] + 1], Leg(v, ps[j], h))
    {
      assert r[j] == TripAt(v, ps[j], j + 1, h);
    }
  }

  /**
   * The loop at App.jsx:208-247. Trips are exactly the pairs above the
   * threshold, in increasing pair order, named `Trip 1`, `Trip 2`, ...
   */
  method SegmentTrips(validCoordinates: seq<Coord>, minTripKm: real, h: Haversine)
    returns (trips: seq<Trip>)
    ensures trips == Trips(validCoordinates, minTripKm, h)
    ensures var ps := TripPairs(validCoordinates, PairCount(validCoordinates), minTripKm, h);
      |trips| == |ps| &&
      forall j :: 0 <= j < |trips| ==>
        trips[j] == Trip(TripName(j + 1), validCoordinates[ps[j]], validCoordinates[ps[j] + 1],
                         Leg(validCoordinates, ps[j], h))
    ensures |validCoordinates| <= 1 ==> trips == []
  {
    var v := validCoordinates;
    var tripCounter := 1;
    trips := [];
    var i := 0;
    while i < |v| - 1
      invariant 0 <= i <= PairCount(v)
      invariant tripCounter == |trips| + 1
      invariant trips == TripsUpTo(v, i, minTripKm, h)
    {
      var distance := h(v[i].lat, v[i].lon, v[i + 1].lat, v[i + 1].lon);
      if distance > minTripKm {
        trips := trips + [Trip(TripName(tripCounter), v[i], v[i + 1], distance)];
        tripCounter := tripCounter + 1;
      }
      i := i + 1;
    }
    TripsUpToPairs(v, i, minTripKm, h);
    TripsAtPairs(v, minTripKm, h);
  }

  /** No two trips share a name. */
  lemma TripNamesDistinct(v: seq<Coord>, minKm: real, h: Haversine)
    ensures var r := Trips(v, minKm, h);
      forall j, j' :: 0 <= j < j' < |r| ==> r[j].tripName != r[j'].tripName
  {
    var r := Trips(v, minKm, h);
    forall j, j' | 0 <= j < j' < |r| ensures r[j].tripName != r[j'].tripName {
      if r[j].tripName == r[j'].tripName {
        TripNameInjective(j + 1, j' + 1);
      }
    }
  }

  /**
   * With the source's threshold of 0.0 and a nonnegative distance, a pair
   * becomes a trip exactly when its endpoints are at positive distance.
   */
  lemma SourceThresholdKeepsPositivePairs(v: seq<Coord>, h: Haversine, i: nat)
    requires i < PairCount(v)
    requires Leg(v, i, h) >= 0.0
    ensures i in TripPairs(v, PairCount(v), SourceMinTripDistance, h) <==> Leg(v, i, h) != 0.0
  {
  }
}
