/** `TTFFService`: a one-way latch on the first update with a positive satellite count. */
module Ttff {
  import opened Wrappers

  /** Timestamp of the first update whose count is positive. */
  function FirstFix(updates: seq<(real, int)>): (r: Option<real>)
    ensures r.Some? ==> exists i :: 0 <= i < |updates| && updates[i].1 > 0 && updates[i].0 == r.value
    decreases |updates|
  {
    if updates == [] then None
    else if updates[0].1 > 0 then Some(updates[0].0)
    else FirstFix(updates[1..])
  }

  /** Adding one update changes the first fix only when there was none and the new count is positive. */
  lemma {:induction false} FirstFixSnoc(updates: seq<(real, int)>, timestamp: real, count: int)
    ensures FirstFix(updates + [(timestamp, count)]) ==
      if FirstFix(updates).None? && count > 0 then Some(timestamp) else FirstFix(updates)
    decreases |updates|
  {
    if updates != [] {
      assert (updates + [(timestamp, count)])[1..] == updates[1..] + [(timestamp, count)];
      FirstFixSnoc(updates[1..], timestamp, count);
    }
  }

  /** No first fix exactly when no count is positive. */
  lemma {:induction false} FirstFixNone(updates: seq<(real, int)>)
    ensures FirstFix(updates).None? <==> forall i :: 0 <= i < |updates| ==> updates[i].1 <= 0
    decreases |updates|
  {
    if updates != [] {
      FirstFixNone(updates[1..]);
      assert forall i :: 1 <= i < |updates| ==> updates[i] == updates[1..][i - 1];
    }
  }

  /** The first fix is the timestamp of the earliest positive update. */
  lemma {:induction false} FirstFixAt(updates: seq<(real, int)>, i: nat)
    requires i < |updates| && updates[i].1 > 0
    requires forall j :: 0 <= j < i ==> updates[j].1 <= 0
    ensures FirstFix(updates) == Some(updates[i].0)
    decreases i
  {
    if i > 0 {
      FirstFixAt(updates[1..], i - 1);
    }
  }

  class TTFFService {
    var firstFixTime: Option<real>
    /** Every `(timestamp, satellite_count)` passed to `update` so far. */
    ghost var updates: seq<(real, int)>

    ghost predicate Valid()
      reads this
    {
      firstFixTime == FirstFix(updates)
    }

    constructor ()
      ensures Valid() && updates == [] && firstFixTime == None
    {
      firstFixTime := None;
      updates := [];
    }

    /** `update`: latch the timestamp of the first positive count; later updates leave it alone. */
    method Update(timestamp: real, satelliteCount: int)
      requires Valid()
      modifies this
      ensures Valid()
      ensures updates == old(updates) + [(timestamp, satelliteCount)]
      ensures firstFixTime ==
        if old(firstFixTime).None? && satelliteCount > 0 then Some(timestamp) else old(firstFixTime)
    {
      FirstFixSnoc(updates, timestamp, satelliteCount);
      if satelliteCount > 0 && firstFixTime.None? {
        firstFixTime := Some(timestamp);
      }
      updates := updates + [(timestamp, satelliteCount)];
    }

    /** `get_ttff`: reads the latch, which is the first fix of all updates so far. */
    method GetTtff() returns (t: Option<real>)
      requires Valid()
      ensures t == firstFixTime
      ensures t == FirstFix(updates)
    {
      t := firstFixTime;
    }
  }
}
