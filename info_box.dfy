/**
 * The info box shown in the sidebar and the merge rule `updateInfoBox`
 * applies to it (App.jsx): every figure is replaced, an entry or exit time is
 * replaced only by a truthy one.
 */
module InfoBox {
  import opened Wrappers

  /**
   * `{ totalDistance, tollDistance, tollCost, entryTime, exitTime, alertMessage }`.
   * A time of `None` stands for JavaScript's `null` or `undefined`.
   */
  datatype Info = Info(
    totalDistance: real,
    tollDistance: real,
    tollCost: real,
    entryTime: Option<string>,
    exitTime: Option<string>,
    alertMessage: string)

  /** The state the dashboard starts with: zero figures, no times, no alert. */
  const InitialInfo: Info := Info(0.0, 0.0, 0.0, None, None, "")

  /** JavaScript truthiness of a time: present and not the empty string. */
  predicate Truthy(t: Option<string>) {
    t.Some? && t.value != ""
  }

  /** `entryTime || prevInfo.entryTime`. */
  function KeepIfFalsy(next: Option<string>, prev: Option<string>): (r: Option<string>)
    ensures Truthy(next) ==> r == next
    ensures !Truthy(next) ==> r == prev
  {
    if Truthy(next) then next else prev
  }

  /**
   * `setInfo((prevInfo) => ...)` with the arguments of one `updateInfoBox`
   * call, themselves given as an `Info`.
   */
  function MergeInfo(prev: Info, args: Info): (r: Info)
    ensures r.totalDistance == args.totalDistance && r.tollDistance == args.tollDistance
    ensures r.tollCost == args.tollCost && r.alertMessage == args.alertMessage
    ensures r.entryTime == (if Truthy(args.entryTime) then args.entryTime else prev.entryTime)
    ensures r.exitTime == (if Truthy(args.exitTime) then args.exitTime else prev.exitTime)
  {
    Info(args.totalDistance, args.tollDistance, args.tollCost,
         KeepIfFalsy(args.entryTime, prev.entryTime),
         KeepIfFalsy(args.exitTime, prev.exitTime),
         args.alertMessage)
  }

  /** The info box after a run of `updateInfoBox` calls, first to last. */
  function ApplyUpdates(prev: Info, updates: seq<Info>): Info {
    if updates == [] then prev
    else MergeInfo(ApplyUpdates(prev, updates[..|updates| - 1]), updates[|updates| - 1])
  }

  /** The latest truthy time among the updates, or the starting one if there is none. */
  function LatestTruthy(start: Option<string>, times: seq<Option<string>>): Option<string> {
    if times == [] then start
    else if Truthy(times[|times| - 1]) then times[|times| - 1]
    else LatestTruthy(start, times[..|times| - 1])
  }

  function EntryTimes(updates: seq<Info>): (ts: seq<Option<string>>)
    ensures |ts| == |updates| && forall i :: 0 <= i < |ts| ==> ts[i] == updates[i].entryTime
  {
    seq(|updates|, i requires 0 <= i < |updates| => updates[i].entryTime)
  }

  function ExitTimes(updates: seq<Info>): (ts: seq<Option<string>>)
    ensures |ts| == |updates| && forall i :: 0 <= i < |ts| ==> ts[i] == updates[i].exitTime
  {
    seq(|updates|, i requires 0 <= i < |updates| => updates[i].exitTime)
  }

  /**
   * After a run of updates the figures and the alert are those of the last
   * call, while each time is the latest truthy one given (or the old one).
   */
  lemma {:induction false} ApplyUpdatesResult(prev: Info, updates: seq<Info>)
    ensures var r := ApplyUpdates(prev, updates);
      && r.entryTime == LatestTruthy(prev.entryTime, EntryTimes(updates))
      && r.exitTime == LatestTruthy(prev.exitTime, ExitTimes(updates))
      && (updates != [] ==>
            var last := updates[|updates| - 1];
            r.totalDistance == last.totalDistance && r.tollDistance == last.tollDistance &&
            r.tollCost == last.tollCost && r.alertMessage == last.alertMessage)
  {
    if updates != [] {
      var init := updates[..|updates| - 1];
      ApplyUpdatesResult(prev, init);
      assert EntryTimes(updates)[..|updates| - 1] == EntryTimes(init);
      assert ExitTimes(updates)[..|updates| - 1] == ExitTimes(init);
    }
  }

  /** A truthy time, once shown, is never cleared by later updates. */
  lemma {:induction false} TruthyTimesPersist(prev: Info, updates: seq<Info>)
    requires Truthy(prev.entryTime) || exists i :: 0 <= i < |updates| && Truthy(updates[i].entryTime)
    ensures Truthy(ApplyUpdates(prev, updates).entryTime)
  {
    if updates != [] {
      var init := updates[..|updates| - 1];
      if !Truthy(updates[|updates| - 1].entryTime) {
        if !Truthy(prev.entryTime) {
          var i :| 0 <= i < |updates| && Truthy(updates[i].entryTime);
          assert init[i] == updates[i];
        }
        TruthyTimesPersist(prev, init);
      }
    }
  }

  /** Repeating the same call changes nothing more. */
  lemma MergeInfoIdempotent(prev: Info, args: Info)
    ensures MergeInfo(MergeInfo(prev, args), args) == MergeInfo(prev, args)
  {
  }
}
