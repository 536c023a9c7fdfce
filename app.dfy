/**
 * The dashboard component of App.jsx: its `trips` and `info` state and the
 * three handlers that change them.
 */
module App {
  import opened Wrappers
  import opened Geo
  import opened TripSegmenter
  import opened InfoBox
  import opened EntryTime
  import opened Wkt
  import opened RouteIntersection

  /** The message `highlightSelectedTrip` logs about the toll road. */
  datatype TollEvent = NoTollEvent | EnteredTollRoad | ExitedTollRoad

  /** The toll rate: 2 rupees per km. */
  const RupeesPerKm: real := 2.0

  /**
   * `tollDistance = totalIntersectionDistance / 1000` (meters to km) and
   * `tollCost = tollDistance * 2`.
   */
  function TollCharge(totalIntersectionDistance: real): (r: (real, real))
    ensures r.0 * 1000.0 == totalIntersectionDistance
    ensures r.1 == RupeesPerKm * r.0
    ensures totalIntersectionDistance >= 0.0 ==> 0.0 <= r.0 && 0.0 <= r.1
  {
    var tollDistance := totalIntersectionDistance / 1000.0;
    (tollDistance, tollDistance * 2.0)
  }

  /** The polyline drawn for a trip: its two endpoints. */
  function TripPolyline(t: Trip): seq<LatLng> {
    [LatLng(t.from.lat, t.from.lon), LatLng(t.to.lat, t.to.lon)]
  }

  /** The arguments `highlightSelectedTrip` passes to `updateInfoBox` for a trip. */
  function HighlightInfo(t: Trip, h: Haversine, fromTrace: TraceResponse, toTrace: TraceResponse,
                         format: TimeFormat, wfs: FeatureService, num: NumberText): (r: Info)
    ensures r.totalDistance == h(t.from.lat, t.from.lon, t.to.lat, t.to.lon)
    ensures r.tollDistance * 1000.0 == CheckResult(TripPolyline(t), TollLayers, wfs, h, num).totalIntersectionDistance
    ensures r.tollCost == RupeesPerKm * r.tollDistance
    ensures r.entryTime == ResolvedTime(t.from.lat, t.from.lon, fromTrace, format)
    ensures r.exitTime == ResolvedTime(t.to.lat, t.to.lon, toTrace, format)
    ensures !CheckResult(TripPolyline(t), TollLayers, wfs, h, num).onTollRoad ==>
              r.tollDistance == 0.0 && r.tollCost == 0.0
    ensures r.alertMessage == ""
  {
    var check := CheckResult(TripPolyline(t), TollLayers, wfs, h, num);
    var charge := TollCharge(check.totalIntersectionDistance);
    Info(h(t.from.lat, t.from.lon, t.to.lat, t.to.lon), charge.0, charge.1,
         ResolvedTime(t.from.lat, t.from.lon, fromTrace, format),
         ResolvedTime(t.to.lat, t.to.lon, toTrace, format),
         "")
  }

  class Dashboard {
    var trips: seq<Trip>
    var info: Info

    constructor ()
      ensures trips == [] && info == InitialInfo
    {
      trips := [];
      info := InitialInfo;
    }

    /** `updateInfoBox(...)`: merge one call's arguments into the info box. */
    method UpdateInfoBox(args: Info)
      modifies this
      ensures info == MergeInfo(old(info), args)
      ensures trips == old(trips)
    {
      info := MergeInfo(info, args);
    }

    /**
     * `startCarAnimation(coordinates)` of App.jsx without its drawing: fewer
     * than two samples leave the trips alone, otherwise they become the trips
     * of the valid samples.
     */
    method StartCarAnimation(coordinates: seq<Coord>, minTripKm: real, h: Haversine)
      modifies this
      ensures |coordinates| < 2 ==> trips == old(trips)
      ensures |coordinates| >= 2 ==> trips == Trips(ValidCoordinates(coordinates), minTripKm, h)
      ensures info == old(info)
    {
      if |coordinates| < 2 {
        return;
      }
      var validCoordinates := ValidCoordinates(coordinates);
      var tripsArray := SegmentTrips(validCoordinates, minTripKm, h);
      trips := tripsArray;
    }

    /**
     * `highlightSelectedTrip(trip)` without its drawing: look up the entry and
     * exit times, check the trip's polyline against the toll layers, price
     * the toll distance and report it to the info box.
     */
    method HighlightSelectedTrip(trip: Option<Trip>, h: Haversine, fromTrace: TraceResponse,
                                 toTrace: TraceResponse, format: TimeFormat, wfs: FeatureService,
                                 num: NumberText)
      returns (event: TollEvent)
      modifies this
      ensures trips == old(trips)
      ensures trip.None? ==> info == old(info) && event == NoTollEvent
      ensures trip.Some? ==>
        info == MergeInfo(old(info), HighlightInfo(trip.value, h, fromTrace, toTrace, format, wfs, num))
      ensures trip.Some? ==>
        (event == EnteredTollRoad <==> CheckResult(TripPolyline(trip.value), TollLayers, wfs, h, num).onTollRoad)
      ensures event != ExitedTollRoad
    {
      event := NoTollEvent;
      if trip.None? {
        return;
      }
      var t := trip.value;
      var totalDistance := h(t.from.lat, t.from.lon, t.to.lat, t.to.lon);
      var enteredTollRoad := false;
      var entry := GetEntryTimeFromAPI(t.from.lat, t.from.lon, fromTrace, format);
      var exit := GetEntryTimeFromAPI(t.to.lat, t.to.lon, toTrace, format);
      var check := CheckRouteIntersectionWithWMS(TripPolyline(t), TollLayers, wfs, h, num);
      var tollDistance := check.totalIntersectionDistance / 1000.0;
      var tollCost := tollDistance * 2.0;
      if check.onTollRoad {
        enteredTollRoad := true;
        event := EnteredTollRoad;
      } else if enteredTollRoad {
        enteredTollRoad := false;
        event := ExitedTollRoad;
      }
      UpdateInfoBox(Info(totalDistance, tollDistance, tollCost, entry, exit, ""));
    }
  }

  /** With at most one valid sample there are no trips. */
  lemma FewValidSamplesGiveNoTrips(coordinates: seq<Coord>, minTripKm: real, h: Haversine)
    requires |ValidCoordinates(coordinates)| <= 1
    ensures Trips(ValidCoordinates(coordinates), minTripKm, h) == []
  {
  }

  /** Invalid samples such as (0, 0), (95, 10) and (10, 200) never reach a trip. */
  lemma {:induction false} TripsUseValidSamplesOnly(coordinates: seq<Coord>, minTripKm: real, h: Haversine)
    ensures var r := Trips(ValidCoordinates(coordinates), minTripKm, h);
      forall j :: 0 <= j < |r| ==> IsValidCoordinate(r[j].from) && IsValidCoordinate(r[j].to)
  {
    var v := ValidCoordinates(coordinates);
    var ps := TripPairs(v, PairCount(v), minTripKm, h);
    var r := Trips(v, minTripKm, h);
    forall j | 0 <= j < |r| ensures IsValidCoordinate(r[j].from) && IsValidCoordinate(r[j].to) {
      assert r[j] == TripAt(v, ps[j], j + 1, h);
    }
  }
}
