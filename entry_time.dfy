/**
 * `getEntryTimeFromAPI` (utils/getEntryTimeFromAPI.js, copied in App.jsx):
 * find, in the fetched trace, the first sample within 0.0001 degrees of a
 * point on both axes and return its formatted timestamp, or `null`.
 */
module EntryTime {
  import opened Wrappers

  /** `{ gps_lat, gps_long, gps_timestamp }` of the trace endpoint. */
  datatype TraceEntry = TraceEntry(gpsLat: real, gpsLong: real, gpsTimestamp: int)

  /**
   * The outcome of fetching and parsing the trace: `FetchFailed` covers a
   * thrown `fetch`, a body that is not JSON and a value that cannot be iterated.
   */
  datatype TraceResponse = FetchFailed | Trace(data: seq<TraceEntry>)

  /** `${toLocaleDateString()} ${toLocaleTimeString()}` of a timestamp; locale-dependent. */
  type TimeFormat = int -> string

  const Tolerance: real := 0.0001

  function Abs(x: real): (r: real)
    ensures r >= 0.0 && (r == x || r == -x)
  {
    if x < 0.0 then -x else x
  }

  /**
   * `Math.abs(lat - apiLat) < 0.0001 && Math.abs(lon - apiLon) < 0.0001`: both
   * differences strictly inside the open interval (-0.0001, 0.0001).
   */
  predicate WithinTolerance(lat: real, lon: real, e: TraceEntry): (b: bool)
    ensures b <==> -Tolerance < lat - e.gpsLat < Tolerance && -Tolerance < lon - e.gpsLong < Tolerance
  {
    Abs(lat - e.gpsLat) < Tolerance && Abs(lon - e.gpsLong) < Tolerance
  }

  /** The position of the first entry at or after `from` that matches. */
  function FirstMatchFrom(lat: real, lon: real, data: seq<TraceEntry>, from: nat): (r: Option<nat>)
    requires from <= |data|
    ensures r.Some? ==> from <= r.value < |data| && WithinTolerance(lat, lon, data[r.value]) &&
                        forall j :: from <= j < r.value ==> !WithinTolerance(lat, lon, data[j])
    ensures r.None? ==> forall j :: from <= j < |data| ==> !WithinTolerance(lat, lon, data[j])
    decreases |data| - from
  {
    if from == |data| then None
    else if WithinTolerance(lat, lon, data[from]) then Some(from)
    else FirstMatchFrom(lat, lon, data, from + 1)
  }

  /** The position of the first matching entry, in data order. */
  function FirstMatch(lat: real, lon: real, data: seq<TraceEntry>): (r: Option<nat>)
    ensures r.Some? ==> r.value < |data| && WithinTolerance(lat, lon, data[r.value]) &&
                        forall j :: 0 <= j < r.value ==> !WithinTolerance(lat, lon, data[j])
    ensures r.None? ==> forall j :: 0 <= j < |data| ==> !WithinTolerance(lat, lon, data[j])
  {
    FirstMatchFrom(lat, lon, data, 0)
  }

  /**
   * What `getEntryTimeFromAPI(lat, lon)` resolves to for a given fetch outcome:
   * `null` when the fetch fails, otherwise the formatted timestamp of the first
   * matching entry, and `null` exactly when no entry matches.
   */
  function ResolvedTime(lat: real, lon: real, response: TraceResponse, format: TimeFormat): (r: Option<string>)
    ensures response.FetchFailed? ==> r.None?
    ensures response.Trace? ==>
      (r.Some? <==> exists j :: 0 <= j < |response.data| && WithinTolerance(lat, lon, response.data[j]))
    ensures r.Some? ==>
      exists j :: 0 <= j < |response.data| && WithinTolerance(lat, lon, response.data[j]) &&
        r.value == format(response.data[j].gpsTimestamp) &&
        forall i :: 0 <= i < j ==> !WithinTolerance(lat, lon, response.data[i])
  {
    match response
    case FetchFailed => None
    case Trace(data) =>
      match FirstMatch(lat, lon, data)
      case None => None
      case Some(k) => Some(format(data[k].gpsTimestamp))
  }

  /** The `for...of` scan with its early return and the `null` fall-throughs. */
  method GetEntryTimeFromAPI(lat: real, lon: real, response: TraceResponse, format: TimeFormat)
    returns (r: Option<string>)
    ensures r == ResolvedTime(lat, lon, response, format)
    ensures response.FetchFailed? ==> r.None?
    ensures response.Trace? ==>
      (r.Some? <==> exists j :: 0 <= j < |response.data| && WithinTolerance(lat, lon, response.data[j]))
  {
    if response.FetchFailed? {
      return None;
    }
    var data := response.data;
    for i := 0 to |data|
      invariant forall j :: 0 <= j < i ==> !WithinTolerance(lat, lon, data[j])
    {
      var entry := data[i];
      if Abs(lat - entry.gpsLat) < Tolerance && Abs(lon - entry.gpsLong) < Tolerance {
        return Some(format(entry.gpsTimestamp));
      }
    }
    return None;
  }

  /** The tolerance is strict: a difference of exactly 0.0001 on either axis is no match. */
  lemma ToleranceIsStrict(lat: real, lon: real, e: TraceEntry)
    requires Abs(lat - e.gpsLat) == Tolerance || Abs(lon - e.gpsLong) == Tolerance
    ensures !WithinTolerance(lat, lon, e)
  {
  }

  /** The answer depends only on the prefix up to and including the first match. */
  lemma {:induction false} LaterEntriesIrrelevant(lat: real, lon: real, data: seq<TraceEntry>, more: seq<TraceEntry>)
    requires FirstMatch(lat, lon, data).Some?
    ensures FirstMatch(lat, lon, data + more) == FirstMatch(lat, lon, data)
  {
    var k := FirstMatch(lat, lon, data).value;
    FirstMatchIsUnique(lat, lon, data + more, k);
  }

  /** A matching position with no match before it is the one the scan finds. */
  lemma FirstMatchIsUnique(lat: real, lon: real, data: seq<TraceEntry>, k: nat)
    requires k < |data| && WithinTolerance(lat, lon, data[k])
    requires forall j :: 0 <= j < k ==> !WithinTolerance(lat, lon, data[j])
    ensures FirstMatch(lat, lon, data) == Some(k)
  {
  }
}
