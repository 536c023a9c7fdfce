# Toll dashboard core, modelled in Dafny

A vehicle-tracking dashboard fetches GPS samples, divides them into numbered
trips, and estimates toll distance and cost by checking the travelled path
against toll-road polygon layers on a feature server. This project models the
sequential logic under its map calls and proves properties of it:

- **Validity filter and trip segmenter** (`startCarAnimation` in `src/App.jsx`).
  Samples with latitude in [-90, 90] and longitude in [-180, 180] are kept,
  except the (0, 0) no-fix sentinel, and their order is unchanged. Each
  consecutive pair whose distance exceeds a threshold becomes `Trip 1`,
  `Trip 2`, … in pair order. The threshold is a parameter. The code compares
  with `0.0` (`SourceMinTripDistance`), although the comment beside it speaks
  of 1.5 km; the model follows the code.
- **Toll accumulator** (`src/utils/startCarAnimation.js`). A two-state walk,
  on or off the toll road. Every leg adds to the total distance. A leg whose
  start point is on the toll road adds to the toll distance and to the cost
  at 2 per unit. Each transition picks an alert and may stamp the entry or
  exit time. Each iteration ends with an `updateInfoBox` call carrying the
  running figures. The file uses `L`, `mapRef`, `setCarMarker`,
  `haversineDistance`, `checkTollIntersection` and `updateInfoBox` without
  binding them; the model takes them as bound the way `src/App.jsx` binds
  them (see "Left out").
- **Toll-layer check** (`src/utils/checkRouteIntersectionWithWMS.js`, copied
  at `src/App.jsx:124-189`). The path is written as a WKT `LINESTRING`
  (ISO 19125 / OGC Simple Features well-known text), longitude first. The
  layers are asked in order. At the first one answering JSON with a
  non-empty `features` list, each MultiPolygon adds the consecutive distances
  of its flattened coordinates, and the scan stops. A feature whose
  `geometry` is `null` throws inside the `try`. The model keeps what the code
  then does: the sum so far and `onTollRoad = true` remain, and the scan goes
  on to the next layer.
- **Timestamp lookup** (`src/utils/getEntryTimeFromAPI.js`, copied at
  `src/App.jsx:256-290`). This returns the first trace entry within a strict
  0.0001° on both axes. The answer is its formatted timestamp, or `null`
  when nothing matches or the fetch fails.
- **Info box** (`updateInfoBox`, `src/App.jsx:107-123`). The figures and the
  alert are always replaced. A falsy entry or exit time keeps the previous one.
- **Dashboard state** (`class Dashboard`). It holds the React state `trips`
  and `info`. Its handlers are `StartCarAnimation`, `UpdateInfoBox` and
  `HighlightSelectedTrip`. The last one converts the intersection distance
  with `/ 1000` and prices it at 2 per km. It starts `enteredTollRoad` at
  false, so its "exited" branch is never taken.

Collaborators that this model does not see become parameters:

- the haversine distance: `Geo.Haversine`;
- `checkTollIntersection`: `TollAccumulator.TollProbe`;
- the wall clock: `TollAccumulator.Clock`;
- locale date formatting: `EntryTime.TimeFormat`;
- JavaScript's number-to-text: `Wkt.NumberText`;
- the feature server, keyed by layer name and WKT filter: `RouteIntersection.FeatureService`;
- the fetched trace: `EntryTime.TraceResponse`.

Coordinates and distances are `real`.

Modules: `Wrappers` (Option), `Geo` (samples, filter, legs), `TripSegmenter`,
`InfoBox`, `TollAccumulator`, `EntryTime`, `Wkt`, `RouteIntersection`, `App`.

## Model

| member | source | states |
|---|---|---|
| `Geo.ValidCoordinates` | src/App.jsx:194-204 | keeps only samples in range and not (0, 0); a sample is in the output exactly when it is in the input and valid; never longer than the input |
| `Geo.KeptIndices` | src/utils/startCarAnimation.js:5-9 | the positions of the valid samples, strictly increasing; a position is listed exactly when its sample is valid |
| `Geo.ValidCoordinatesInOrder` | src/utils/startCarAnimation.js:5-9 | the j-th filtered sample is the input sample at the j-th valid position, so the filter keeps input order |
| `Geo.ValidCoordinatesAppend` | src/App.jsx:194-204 | filtering distributes over concatenation, so no kept sample moves past another |
| `Geo.ValidCoordinatesIdempotent` | src/App.jsx:194-204 | filtering an already filtered trace changes nothing |
| `TripSegmenter.NatToDecimal` | src/App.jsx:238 | the counter's text in `Trip ${tripCounter}` is a non-empty string of decimal digits |
| `TripSegmenter.DecimalRoundTrip` | src/App.jsx:238 | reading the decimal text back gives the counter |
| `TripSegmenter.TripNameInjective` | src/App.jsx:238 | two counters with the same trip name are equal |
| `TripSegmenter.TripPairs` | src/App.jsx:228-236 | the pairs that become trips, strictly increasing; pair i is listed exactly when its distance is strictly above the threshold |
| `TripSegmenter.TripsFor` | src/App.jsx:237-242 | one trip per recorded pair |
| `TripSegmenter.TripsForSnoc` | src/App.jsx:237-245 | recording one more pair appends exactly one trip, named after the next counter, and leaves the earlier trips alone |
| `TripSegmenter.Trips` | src/App.jsx:228-249 | at most (valid samples − 1) trips; the j-th is named `Trip j+1` and its distance is above the threshold |
| `TripSegmenter.SegmentTrips` | src/App.jsx:208-247 | the loop's trips: the j-th is `Trip j+1` from `v[p]` to `v[p+1]` with that pair's distance, where p is the j-th pair above the threshold; no trips when there is at most one valid sample |
| `TripSegmenter.TripsStep` | src/App.jsx:233-246 | walking one more pair adds one trip, named after the next counter, exactly when its distance is above the threshold, and nothing otherwise |
| `TripSegmenter.TripsUpToPairs` | src/App.jsx:228-247 | the trips the loop has built after k pairs (`TripsUpTo`) are exactly the trips of the pairs above the threshold among those k |
| `TripSegmenter.TripNamesDistinct` | src/App.jsx:208-245 | no two trips share a name |
| `TripSegmenter.SourceThresholdKeepsPositivePairs` | src/App.jsx:235-236 | with the code's threshold 0.0, a pair at nonnegative distance becomes a trip exactly when its distance is not 0 |
| `InfoBox.KeepIfFalsy` | src/App.jsx:119-120 | a truthy time replaces the old one; a falsy one (`null`, `undefined`, "") keeps it |
| `InfoBox.MergeInfo` | src/App.jsx:115-122 | total, toll distance, toll cost and alert are always replaced; entry and exit time only by truthy values |
| `InfoBox.ApplyUpdatesResult` | src/App.jsx:107-123 | after a run of updates the figures and alert are the last call's, and each time is the latest truthy one given, or the starting one |
| `InfoBox.TruthyTimesPersist` | src/App.jsx:119 | once a truthy entry time has been shown, no later update clears it |
| `InfoBox.MergeInfoIdempotent` | src/App.jsx:115-122 | repeating the same update changes nothing more |
| `TollAccumulator.AlertMessage` | src/utils/startCarAnimation.js:75-91 | off→on gives "You have entered the toll road.", on→off gives "You have exited the toll road.", staying on gives "You are On Toll Road!", staying off gives "" |
| `TollAccumulator.AlertMessageNamesTransition` | src/utils/startCarAnimation.js:75-91 | the four alerts differ, so each holds exactly on its transition: "entered" iff off→on, "exited" iff on→off, "On Toll Road" iff staying on, "" iff staying off |
| `TollAccumulator.UpdateAfter` | src/utils/startCarAnimation.js:65-95 | the figures of call i: total = the first i legs plus leg i; toll distance = the earlier toll distance plus leg i exactly when its start point is on the toll road; cost = 2 × toll distance; entry and exit are always passed |
| `TollAccumulator.Updates` | src/utils/startCarAnimation.js:65-96 | one `updateInfoBox` call per iteration walked |
| `TollAccumulator.UpdatesAt` | src/utils/startCarAnimation.js:65-96 | the j-th call among the first k carries iteration j's figures, whatever k is |
| `TollAccumulator.AnimateLegs` | src/utils/startCarAnimation.js:65-96 | the loop makes one call per pair of valid samples; call i carries the figures of iteration i; at the end `enteredTollRoad` is the probe's answer for the last pair's start, false when there is no pair |
| `TollAccumulator.EntryTimeIsLatestEntry` | src/utils/startCarAnimation.js:78-83 | `entry` (initialised "" at line 16) stays "" until an iteration enters the toll road, and is then the clock reading of the latest iteration that did |
| `TollAccumulator.ExitTimeIsLatestExit` | src/utils/startCarAnimation.js:84-87 | `exit` (initialised "" at line 17) stays "" until an iteration leaves the toll road, and is then the clock reading of the latest iteration that did |
| `TollAccumulator.StartCarAnimation` | src/utils/startCarAnimation.js:2-96 | with fewer than 2 samples, no update at all; otherwise one `updateInfoBox` call per pair of valid samples, and call i carries the running total, the running toll distance, cost = 2 × toll distance, the last entry and exit clock readings, and iteration i's alert; at the end `enteredTollRoad` is the probe's answer for the last pair's start |
| `TollAccumulator.TollWithinTotal` | src/utils/startCarAnimation.js:71-89 | with nonnegative legs, 0 ≤ toll distance ≤ total distance |
| `TollAccumulator.NoTollOffTheRoad` | src/utils/startCarAnimation.js:78-92 | if no start point is on the toll road, the toll distance is 0 |
| `TollAccumulator.AllTollOnTheRoad` | src/utils/startCarAnimation.js:78-92 | if every start point is on the toll road, the toll distance equals the total distance |
| `TollAccumulator.StepChanges` | src/utils/startCarAnimation.js:78-92 | the entry time changes only on off→on and the exit time only on on→off; a leg is added to the toll distance exactly when its start point is on the toll road (entering or staying), so an exiting leg adds nothing |
| `TollAccumulator.EntriesAndExitsAlternate` | src/utils/startCarAnimation.js:78-87 | between two entries onto the toll road there is an exit |
| `TollAccumulator.OffUntilExit` | src/utils/startCarAnimation.js:84-87 | going from on the road to off it later passes an exit transition |
| `EntryTime.Abs` | src/utils/getEntryTimeFromAPI.js:13 | `Math.abs`: nonnegative and equal to x or −x |
| `EntryTime.WithinTolerance` | src/utils/getEntryTimeFromAPI.js:13 | an entry matches exactly when both differences lie strictly inside (−0.0001, 0.0001) |
| `EntryTime.ResolvedTime` | src/utils/getEntryTimeFromAPI.js:1-35 | a failed fetch gives `null`; otherwise there is a result exactly when some entry matches, and it is the formatted timestamp of a matching entry with no match before it |
| `EntryTime.FirstMatchFrom` | src/utils/getEntryTimeFromAPI.js:8-25 | the first matching position at or after a start, with every earlier one failing the tolerance test; none when none matches |
| `EntryTime.FirstMatch` | src/utils/getEntryTimeFromAPI.js:8-29 | the first entry in data order within tolerance on both axes, with every entry before it failing; none exactly when no entry matches |
| `EntryTime.GetEntryTimeFromAPI` | src/utils/getEntryTimeFromAPI.js:1-35 | a fetch or parse failure gives `null`; otherwise the result is the first match's formatted timestamp, and it is present exactly when some entry matches |
| `EntryTime.ToleranceIsStrict` | src/utils/getEntryTimeFromAPI.js:13 | a difference of exactly 0.0001 on either axis is no match |
| `EntryTime.LaterEntriesIrrelevant` | src/utils/getEntryTimeFromAPI.js:8-25 | entries after the first match do not change the answer |
| `EntryTime.FirstMatchIsUnique` | src/utils/getEntryTimeFromAPI.js:8-25 | a matching position with no match before it is the one the scan returns |
| `Wkt.PointTexts` | src/utils/checkRouteIntersectionWithWMS.js:11 | one `lng lat` text per polyline point, in order |
| `Wkt.ParsePointText` | src/utils/checkRouteIntersectionWithWMS.js:11 | a point's `${lng} ${lat}` splits at its one space into the longitude's text, then the latitude's |
| `Wkt.LineStringShape` | src/utils/checkRouteIntersectionWithWMS.js:11-12 | the filter text starts with `LINESTRING(`, ends with `)`, has the first point's text right after the parenthesis, and is `LINESTRING()` for no points |
| `Wkt.ParseBodyRoundTrip` | src/utils/checkRouteIntersectionWithWMS.js:11 | the ", "-joined point texts read back as the points' (longitude, latitude) texts, in order |
| `Wkt.SplitJoin` | src/utils/checkRouteIntersectionWithWMS.js:11 | splitting the ", "-joined point texts at commas gives each text back, in order, each after the first behind one space |
| `Wkt.LineStringRoundTrip` | src/utils/checkRouteIntersectionWithWMS.js:10-12 | the `LINESTRING(...)` text parses back to the polyline's points in order, longitude first, when no number text contains a comma or a space |
| `RouteIntersection.FeatureIntersectionDistance` | src/utils/checkRouteIntersectionWithWMS.js:39-44 | the sum of the consecutive distances of the flattened coordinates |
| `RouteIntersection.FlattenRingsKeepsPositions` | src/utils/checkRouteIntersectionWithWMS.js:36 | flattening a polygon's rings puts the first ring first and keeps a position exactly when it is in some ring |
| `RouteIntersection.FlattenKeepsPositions` | src/utils/checkRouteIntersectionWithWMS.js:36 | `.flat(2)` keeps a position exactly when it is in some ring of some polygon |
| `RouteIntersection.FeatureDistanceNonnegative` | src/utils/checkRouteIntersectionWithWMS.js:34-47 | with nonnegative distances one feature adds a nonnegative amount |
| `RouteIntersection.SumFeaturesThrows` | src/utils/checkRouteIntersectionWithWMS.js:33-34 | the features loop throws exactly when a feature it reaches has no geometry |
| `RouteIntersection.SumFeaturesWithoutMultiPolygons` | src/utils/checkRouteIntersectionWithWMS.js:33-49 | present geometries that are not MultiPolygons add nothing and do not throw |
| `RouteIntersection.LayerFeaturesDistance` | src/utils/checkRouteIntersectionWithWMS.js:33-49 | the features loop of a matching layer adds what `SumFeatures` says, and stops at the first feature without geometry |
| `RouteIntersection.ScanLayers` | src/utils/checkRouteIntersectionWithWMS.js:15-58 | the scan only stops (`break`) while on the toll road; before a match it has measured nothing |
| `RouteIntersection.ScanTollLayers` | src/utils/checkRouteIntersectionWithWMS.js:15-58 | the layer loop ends in the scan's state; `onTollRoad` holds exactly when some layer answered JSON with features |
| `RouteIntersection.CheckResult` | src/utils/checkRouteIntersectionWithWMS.js:60-65 | the resolved `{ onTollRoad, totalIntersectionDistance }`: on the toll road exactly when some layer matches the line string, and distance 0 otherwise |
| `RouteIntersection.CheckRouteIntersectionWithWMS` | src/utils/checkRouteIntersectionWithWMS.js:2-65 | the ordered scan with `break` and the nested sums; `onTollRoad` holds exactly when some layer answers JSON with non-empty features; without it the distance is 0 |
| `RouteIntersection.SumFeaturesAfterThrow` | src/utils/checkRouteIntersectionWithWMS.js:33-57 | a feature without geometry ends the features loop; later features add nothing |
| `RouteIntersection.ScanStaysStopped` | src/utils/checkRouteIntersectionWithWMS.js:50 | after the `break`, later layers are never asked and the result does not change |
| `RouteIntersection.ScanMatchesSomeLayer` | src/utils/checkRouteIntersectionWithWMS.js:24-30 | after k layers, the toll road is reported exactly when one of them answered JSON with features; a failed or non-JSON layer is no match and the scan goes on |
| `RouteIntersection.FirstMatchingLayerDecides` | src/utils/checkRouteIntersectionWithWMS.js:29-50 | when layer i is the first to answer with features and none lacks a geometry, the result is that layer's feature sum alone, whatever later layers would answer |
| `RouteIntersection.NothingBeforeFirstMatch` | src/utils/checkRouteIntersectionWithWMS.js:15-29 | layers before the first match leave `onTollRoad` false and the distance 0 |
| `RouteIntersection.FeatureDistanceZero` | src/utils/checkRouteIntersectionWithWMS.js:34-44 | a feature that is not a MultiPolygon, or has at most one flattened position, adds 0 |
| `RouteIntersection.PositionsLengthNonnegative` | src/utils/checkRouteIntersectionWithWMS.js:39-44 | with nonnegative distances a feature's sum is nonnegative |
| `App.TollCharge` | src/App.jsx:329-330 | toll distance × 1000 = intersection distance, and toll cost = 2 × toll distance; both nonnegative for a nonnegative distance |
| `App.HighlightInfo` | src/App.jsx:317-347 | the info sent for a trip charges 2 per km of toll distance, charges nothing when the trip does not touch a toll layer, and has an empty alert |
| `App.Dashboard.constructor` | src/App.jsx:14-21 | no trips, zero figures, no times |
| `App.Dashboard.UpdateInfoBox` | src/App.jsx:107-123 | the info box becomes the merge of the old one with the arguments; trips are untouched |
| `App.Dashboard.StartCarAnimation` | src/App.jsx:190-255 | fewer than 2 samples leave the trips unchanged; otherwise the trips become those of the valid samples; the info box is untouched |
| `App.Dashboard.HighlightSelectedTrip` | src/App.jsx:291-347 | no trip, no change; otherwise the info box merges the trip's distance, toll distance, toll cost and the looked-up entry and exit times; the "entered" log happens exactly when the toll check succeeds, and the "exited" branch is unreachable |
| `App.FewValidSamplesGiveNoTrips` | src/App.jsx:228-249 | with at most one valid sample the loop never runs and the trip list is empty |
| `App.TripsUseValidSamplesOnly` | src/App.jsx:194-242 | both endpoints of every trip are valid samples, so (0, 0), (95, 10) and (10, 200) never appear in a trip |

## Left out

- Leaflet drawing: markers, polylines, tile and WMS layers, the routing control, `setView` and `fitBounds`. They are presentation over a library that is not part of this model.
- TollAccumulator.StartCarAnimation: `src/utils/startCarAnimation.js` never binds `L` (line 20), `mapRef` (30-31), `setCarMarker` (32), `haversineDistance` (70), `checkTollIntersection` (74) or `updateInfoBox` (95). As it stands, it throws a ReferenceError at line 30 before its loop runs. The model assumes they are bound as in `src/App.jsx`, and models the loop that would then run. With two or more samples but none valid, `L.marker(validCoordinates[0])` gets `undefined`; that is not modelled, and the model makes no calls.
- App.Dashboard.StartCarAnimation: assumes the marker and view calls succeed. With two or more samples but none valid, `L.marker(validCoordinates[0])` would receive `undefined`; how the map library reacts is not part of this model. The model sets the trips to the empty list in that case.
- The `fetch`, `response.text()`, header and `JSON.parse` plumbing, the proxy URL and the query-string building. The fetched trace and each layer's answer are inputs instead.
- `fetchCoordinates` (`src/App.jsx:81-105`, `src/utils/fetchCoordinates.js`) and `src/utils/highlightSelectedTrip.js`: HTTP and drawing only.
- The haversine formula. Its file is not part of this model, and it is floating-point trigonometry, so it is a parameter.
- Floating point: sums are exact `real` sums. JavaScript's rounding, its order dependence and `NaN` are not modelled.
- `App.HighlightInfo` keeps the total distance as a number. The source stores `toFixed(2)`, a string rounded to two decimals.
- Units: `highlightSelectedTrip` treats the intersection sum as meters (`/ 1000`), while the trip threshold and `startCarAnimation.js` treat the same function's output as km. The model keeps both conversions as written.
- Locale date and time formatting (`toLocaleDateString`, `toLocaleTimeString`) and the wall clock (`new Date()`). They depend on the host's zone, locale and time, so they are parameters.
- `src/utils/checkTollIntersection.js`. It returns before its promises resolve, so its meaning is about async ordering. The accumulator takes its answer as a parameter.
- JavaScript coercions of malformed samples (`undefined`, `null`, strings) in the range tests. Samples are modelled as reals.
- Concurrency between handlers: stale responses or overlapping selections. Every call is modelled as running alone.
- `getStartEndTimestamps`, the Sidebar and Header components, and the build configuration: UI and locale only.
- The feature check measures polygon outlines, since it flattens MultiPolygon coordinates, not the overlap of the route with the polygons. The model keeps that as written and does not compute a geometric intersection.
- `InfoBox.InitialInfo`: the React state at `src/App.jsx:17-21` starts with no `entryTime`, `exitTime` or `alertMessage` keys, so they read `undefined`. The model starts the times as `None` and the alert as "". Both are falsy and render as nothing.
- Console output is left out: `console.log` and `console.error` at `src/utils/checkRouteIntersectionWithWMS.js:46,53,56,61,63`, `src/utils/getEntryTimeFromAPI.js:28,32` and `src/App.jsx:332-337`. Only the "entered" and "exited" logs of `highlightSelectedTrip` (`src/App.jsx:341,344`) are modelled, as a `TollEvent`.
