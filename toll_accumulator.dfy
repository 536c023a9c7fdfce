/**
 * The toll accumulator of utils/startCarAnimation.js: a walk over the
 * consecutive pairs of valid samples that is either on or off the toll road,
 * adding every leg to the total distance, adding the legs that start on the
 * toll road to the toll distance and cost, and reporting each step to the
 * info box.
 */
module TollAccumulator {
  import opened Wrappers
  import opened Geo
  import opened InfoBox

  /** `checkTollIntersection(lat, lon)`, whose definition is not part of this model. */
  type TollProbe = (real, real) -> bool

  /** `new Date().toLocaleTimeString()` as read during iteration i. */
  type Clock = nat -> string

  const EnteredMessage: string := "You have entered the toll road."
  const ExitedMessage: string := "You have exited the toll road."
  const OnTollMessage: string := "You are On Toll Road!"

  /** The rate: 2 rupees per unit of distance. */
  const RatePerKm: real := 2.0

  /** The probe's answer for the start point of pair i. */
  predicate OnToll(v: seq<Coord>, i: nat, probe: TollProbe)
    requires i < |v|
  {
    probe(v[i].lat, v[i].lon)
  }

  /** `enteredTollRoad` as iteration i begins: the previous iteration's answer, false at first. */
  predicate WasOnToll(v: seq<Coord>, i: nat, probe: TollProbe)
    requires i < |v|
  {
    i > 0 && OnToll(v, i - 1, probe)
  }

  predicate Entering(v: seq<Coord>, i: nat, probe: TollProbe)
    requires i < |v|
  {
    OnToll(v, i, probe) && !WasOnToll(v, i, probe)
  }

  predicate Exiting(v: seq<Coord>, i: nat, probe: TollProbe)
    requires i < |v|
  {
    !OnToll(v, i, probe) && WasOnToll(v, i, probe)
  }

  /** The sum of the first k legs. */
  function TotalDistance(v: seq<Coord>, k: nat, h: Haversine): real
    requires k <= PairCount(v)
  {
    if k == 0 then 0.0 else TotalDistance(v, k - 1, h) + Leg(v, k - 1, h)
  }

  /** The sum of those of the first k legs whose start point is on the toll road. */
  function TollDistance(v: seq<Coord>, k: nat, h: Haversine, probe: TollProbe): real
    requires k <= PairCount(v)
  {
    if k == 0 then 0.0
    else TollDistance(v, k - 1, h, probe) + (if OnToll(v, k - 1, probe) then Leg(v, k - 1, h) else 0.0)
  }

  /** The clock reading of the last off-to-on iteration before k, or "" if there is none. */
  function EntryTime(v: seq<Coord>, k: nat, probe: TollProbe, clock: Clock): string
    requires k <= PairCount(v)
  {
    if k == 0 then ""
    else if Entering(v, k - 1, probe) then clock(k - 1)
    else EntryTime(v, k - 1, probe, clock)
  }

  /** The clock reading of the last on-to-off iteration before k, or "" if there is none. */
  function ExitTime(v: seq<Coord>, k: nat, probe: TollProbe, clock: Clock): string
    requires k <= PairCount(v)
  {
    if k == 0 then ""
    else if Exiting(v, k - 1, probe) then clock(k - 1)
    else ExitTime(v, k - 1, probe, clock)
  }

  /** The alert of iteration i. */
  function AlertMessage(v: seq<Coord>, i: nat, probe: TollProbe): (m: string)
    requires i < |v|
    ensures Entering(v, i, probe) ==> m == EnteredMessage
    ensures Exiting(v, i, probe) ==> m == ExitedMessage
    ensures OnToll(v, i, probe) && WasOnToll(v, i, probe) ==> m == OnTollMessage
    ensures !OnToll(v, i, probe) && !WasOnToll(v, i, probe) ==> m == ""
  {
    if Entering(v, i, probe) then EnteredMessage
    else if Exiting(v, i, probe) then ExitedMessage
    else if OnToll(v, i, probe) then OnTollMessage
    else ""
  }

  /** The four texts differ, so the alert of an iteration names its transition. */
  lemma AlertMessageNamesTransition(v: seq<Coord>, i: nat, probe: TollProbe)
    requires i < |v|
    ensures AlertMessage(v, i, probe) == EnteredMessage <==> Entering(v, i, probe)
    ensures AlertMessage(v, i, probe) == ExitedMessage <==> Exiting(v, i, probe)
    ensures AlertMessage(v, i, probe) == OnTollMessage <==> OnToll(v, i, probe) && WasOnToll(v, i, probe)
    ensures AlertMessage(v, i, probe) == "" <==> !OnToll(v, i, probe) && !WasOnToll(v, i, probe)
  {
    assert |EnteredMessage| == 31 && |ExitedMessage| == 30 && |OnTollMessage| == 21;
  }

  /**
   * The arguments of the `updateInfoBox` call that ends iteration i: this
   * leg added to the total, added to the toll distance when it starts on the
   * toll road, a cost of 2 per unit of toll distance, and both times always
   * given.
   */
  function UpdateAfter(v: seq<Coord>, i: nat, h: Haversine, probe: TollProbe, clock: Clock): (r: Info)
    requires i < PairCount(v)
    ensures r.totalDistance == TotalDistance(v, i, h) + Leg(v, i, h)
    ensures r.tollDistance == TollDistance(v, i, h, probe) + (if OnToll(v, i, probe) then Leg(v, i, h) else 0.0)
    ensures r.tollCost == RatePerKm * r.tollDistance
    ensures r.entryTime.Some? && r.exitTime.Some?
  {
    Info(TotalDistance(v, i + 1, h), TollDistance(v, i + 1, h, probe),
         RatePerKm * TollDistance(v, i + 1, h, probe),
         Some(EntryTime(v, i + 1, probe, clock)), Some(ExitTime(v, i + 1, probe, clock)),
         AlertMessage(v, i, probe))
  }

  /** The `updateInfoBox` calls of the first k iterations, in order. */
  function Updates(v: seq<Coord>, k: nat, h: Haversine, probe: TollProbe, clock: Clock): (u: seq<Info>)
    requires k <= PairCount(v)
    ensures |u| == k
  {
    if k == 0 then [] else Updates(v, k - 1, h, probe, clock) + [UpdateAfter(v, k - 1, h, probe, clock)]
  }

  /** The j-th call of the first k iterations carries the arguments of iteration j. */
  lemma {:induction false} UpdatesAt(v: seq<Coord>, k: nat, j: nat, h: Haversine, probe: TollProbe, clock: Clock)
    requires j < k <= PairCount(v)
    ensures Updates(v, k, h, probe, clock)[j] == UpdateAfter(v, j, h, probe, clock)
  {
    if j < k - 1 {
      UpdatesAt(v, k - 1, j, h, probe, clock);
    }
  }

  /**
   * `startCarAnimation` of utils/startCarAnimation.js without its drawing:
   * the `updateInfoBox` calls it makes, in order, and `enteredTollRoad` at the end.
   */
  method StartCarAnimation(coordinates: seq<Coord>, h: Haversine, probe: TollProbe, clock: Clock)
    returns (updates: seq<Info>, enteredTollRoad: bool)
    ensures |coordinates| < 2 ==> updates == [] && !enteredTollRoad
    ensures var v := ValidCoordinates(coordinates);
      |coordinates| >= 2 ==>
        && |updates| == PairCount(v)
        && (forall i :: 0 <= i < |updates| ==> updates[i] == UpdateAfter(v, i, h, probe, clock))
        && enteredTollRoad == (PairCount(v) > 0 && OnToll(v, PairCount(v) - 1, probe))
  {
    updates := [];
    enteredTollRoad := false;
    if |coordinates| < 2 {
      return;
    }
    var v := ValidCoordinates(coordinates);
    updates, enteredTollRoad := AnimateLegs(v, h, probe, clock);
  }

  /**
   * The loop of `startCarAnimation` over the valid samples: one
   * `updateInfoBox` call per pair, carrying the running figures, and the
   * toll-road flag of the last pair at the end.
   */
  method AnimateLegs(v: seq<Coord>, h: Haversine, probe: TollProbe, clock: Clock)
    returns (updates: seq<Info>, enteredTollRoad: bool)
    ensures |updates| == PairCount(v)
    ensures forall i :: 0 <= i < |updates| ==> updates[i] == UpdateAfter(v, i, h, probe, clock)
    ensures enteredTollRoad == (PairCount(v) > 0 && OnToll(v, PairCount(v) - 1, probe))
  {
    updates := [];
    enteredTollRoad := false;
    var totalDistance := 0.0;
    var tollDistance := 0.0;
    var tollCost := 0.0;
    var entry := "";
    var exit := "";
    var i := 0;
    while i < |v| - 1
      invariant 0 <= i <= PairCount(v)
      invariant totalDistance == TotalDistance(v, i, h)
      invariant tollDistance == TollDistance(v, i, h, probe)
      invariant tollCost == RatePerKm * tollDistance
      invariant enteredTollRoad == (i > 0 && OnToll(v, i - 1, probe))
      invariant entry == EntryTime(v, i, probe, clock)
      invariant exit == ExitTime(v, i, probe, clock)
      invariant updates == Updates(v, i, h, probe, clock)
    {
      var distance := h(v[i].lat, v[i].lon, v[i + 1].lat, v[i + 1].lon);
      totalDistance := totalDistance + distance;
      var onTollRoad := probe(v[i].lat, v[i].lon);
      ghost var next := UpdateAfter(v, i, h, probe, clock);
      assert onTollRoad == OnToll(v, i, probe) && enteredTollRoad == WasOnToll(v, i, probe);
      var alertMessage := "";
      if onTollRoad && !enteredTollRoad {
        enteredTollRoad := true;
        entry := clock(i);
        tollDistance := tollDistance + distance;
        tollCost := tollCost + distance * 2.0;
        alertMessage := EnteredMessage;
      } else if !onTollRoad && enteredTollRoad {
        enteredTollRoad := false;
        exit := clock(i);
        alertMessage := ExitedMessage;
      } else if onTollRoad {
        tollDistance := tollDistance + distance;
        tollCost := tollCost + distance * 2.0;
        alertMessage := OnTollMessage;
      }
      assert totalDistance == next.totalDistance && tollDistance == next.tollDistance;
      assert Some(entry) == next.entryTime && Some(exit) == next.exitTime && alertMessage == next.alertMessage;
      updates := updates + [Info(totalDistance, tollDistance, tollCost, Some(entry), Some(exit), alertMessage)];
      i := i + 1;
    }
    forall j | 0 <= j < i ensures updates[j] == UpdateAfter(v, j, h, probe, clock) {
      UpdatesAt(v, i, j, h, probe, clock);
    }
  }

  /**
   * The entry time after k iterations is "" when no iteration so far entered
   * the toll road, and otherwise the clock reading of the latest one that did.
   */
  lemma {:induction false} EntryTimeIsLatestEntry(v: seq<Coord>, k: nat, probe: TollProbe, clock: Clock)
    requires k <= PairCount(v)
    ensures (forall j :: 0 <= j < k ==> !Entering(v, j, probe)) ==> EntryTime(v, k, probe, clock) == ""
    ensures (exists j :: 0 <= j < k && Entering(v, j, probe)) ==>
      exists j :: 0 <= j < k && Entering(v, j, probe) && EntryTime(v, k, probe, clock) == clock(j) &&
        forall m :: j < m < k ==> !Entering(v, m, probe)
  {
    if k > 0 {
      EntryTimeIsLatestEntry(v, k - 1, probe, clock);
      if Entering(v, k - 1, probe) {
        assert EntryTime(v, k, probe, clock) == clock(k - 1);
      } else {
        assert EntryTime(v, k, probe, clock) == EntryTime(v, k - 1, probe, clock);
        if exists j :: 0 <= j < k && Entering(v, j, probe) {
          var j0 :| 0 <= j0 < k && Entering(v, j0, probe);
          assert j0 < k - 1;
          var j :| 0 <= j < k - 1 && Entering(v, j, probe) && EntryTime(v, k - 1, probe, clock) == clock(j) &&
            forall m :: j < m < k - 1 ==> !Entering(v, m, probe);
          assert forall m :: j < m < k ==> !Entering(v, m, probe);
        }
      }
    }
  }

  /**
   * The exit time after k iterations is "" when no iteration so far left the
   * toll road, and otherwise the clock reading of the latest one that did.
   */
  lemma {:induction false} ExitTimeIsLatestExit(v: seq<Coord>, k: nat, probe: TollProbe, clock: Clock)
    requires k <= PairCount(v)
    ensures (forall j :: 0 <= j < k ==> !Exiting(v, j, probe)) ==> ExitTime(v, k, probe, clock) == ""
    ensures (exists j :: 0 <= j < k && Exiting(v, j, probe)) ==>
      exists j :: 0 <= j < k && Exiting(v, j, probe) && ExitTime(v, k, probe, clock) == clock(j) &&
        forall m :: j < m < k ==> !Exiting(v, m, probe)
  {
    if k > 0 {
      ExitTimeIsLatestExit(v, k - 1, probe, clock);
      if Exiting(v, k - 1, probe) {
        assert ExitTime(v, k, probe, clock) == clock(k - 1);
      } else {
        assert ExitTime(v, k, probe, clock) == ExitTime(v, k - 1, probe, clock);
        if exists j :: 0 <= j < k && Exiting(v, j, probe) {
          var j0 :| 0 <= j0 < k && Exiting(v, j0, probe);
          assert j0 < k - 1;
          var j :| 0 <= j < k - 1 && Exiting(v, j, probe) && ExitTime(v, k - 1, probe, clock) == clock(j) &&
            forall m :: j < m < k - 1 ==> !Exiting(v, m, probe);
          assert forall m :: j < m < k ==> !Exiting(v, m, probe);
        }
      }
    }
  }

  /** With nonnegative legs the toll distance never exceeds the total distance. */
  lemma {:induction false} TollWithinTotal(v: seq<Coord>, k: nat, h: Haversine, probe: TollProbe)
    requires k <= PairCount(v)
    requires forall i :: 0 <= i < k ==> Leg(v, i, h) >= 0.0
    ensures 0.0 <= TollDistance(v, k, h, probe) <= TotalDistance(v, k, h)
  {
    if k > 0 {
      TollWithinTotal(v, k - 1, h, probe);
    }
  }

  /** Off the toll road throughout, nothing is charged. */
  lemma {:induction false} NoTollOffTheRoad(v: seq<Coord>, k: nat, h: Haversine, probe: TollProbe)
    requires k <= PairCount(v)
    requires forall i :: 0 <= i < k ==> !OnToll(v, i, probe)
    ensures TollDistance(v, k, h, probe) == 0.0
  {
    if k > 0 {
      NoTollOffTheRoad(v, k - 1, h, probe);
    }
  }

  /** On the toll road throughout, every leg is charged. */
  lemma {:induction false} AllTollOnTheRoad(v: seq<Coord>, k: nat, h: Haversine, probe: TollProbe)
    requires k <= PairCount(v)
    requires forall i :: 0 <= i < k ==> OnToll(v, i, probe)
    ensures TollDistance(v, k, h, probe) == TotalDistance(v, k, h)
  {
    if k > 0 {
      AllTollOnTheRoad(v, k - 1, h, probe);
    }
  }

  /**
   * The entry time changes only on an off-to-on iteration, the exit time
   * only on an on-to-off one, and the toll distance grows exactly by the
   * leg on an iteration that starts on the toll road.
   */
  lemma StepChanges(v: seq<Coord>, i: nat, h: Haversine, probe: TollProbe, clock: Clock)
    requires i < PairCount(v)
    ensures EntryTime(v, i + 1, probe, clock) != EntryTime(v, i, probe, clock) ==> Entering(v, i, probe)
    ensures ExitTime(v, i + 1, probe, clock) != ExitTime(v, i, probe, clock) ==> Exiting(v, i, probe)
    ensures TollDistance(v, i + 1, h, probe) ==
            TollDistance(v, i, h, probe) + (if OnToll(v, i, probe) then Leg(v, i, h) else 0.0)
  {
  }

  /** Entering and exiting alternate: between two entries there is an exit. */
  lemma {:induction false} EntriesAndExitsAlternate(v: seq<Coord>, i: nat, j: nat, probe: TollProbe)
    requires i < j < |v|
    requires Entering(v, i, probe) && Entering(v, j, probe)
    ensures exists m :: i < m < j && Exiting(v, m, probe)
  {
    if !Exiting(v, j - 1, probe) {
      assert OnToll(v, j - 1, probe) == false by {
        assert !WasOnToll(v, j, probe);
      }
      assert i < j - 1;
      OffUntilExit(v, i, j - 1, probe);
    }
  }

  /** From an on-road point i, an off-road point k later is preceded by an exit. */
  lemma {:induction false} OffUntilExit(v: seq<Coord>, i: nat, k: nat, probe: TollProbe)
    requires i < k < |v|
    requires OnToll(v, i, probe) && !OnToll(v, k, probe)
    ensures exists m :: i < m <= k && Exiting(v, m, probe)
  {
    if OnToll(v, k - 1, probe) {
      assert Exiting(v, k, probe);
    } else {
      OffUntilExit(v, i, k - 1, probe);
    }
  }
}
