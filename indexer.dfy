/** Positional lookups on a sorted date index, as pandas' `Index.get_indexer`
    does them; `-1` stands for "no such position", as it does in pandas. */
module Indexer {
  import opened Series

  /** `get_indexer(method='pad')`: the last position whose date is at or before `t`. */
  function PadIndex(dates: seq<Date>, t: Date): (r: int)
    ensures -1 <= r < |dates|
    ensures r >= 0 ==> dates[r] <= t
    ensures forall j :: r < j < |dates| ==> dates[j] > t
  {
    if dates == [] then -1
    else if dates[|dates| - 1] <= t then |dates| - 1
    else PadIndex(dates[..|dates| - 1], t)
  }

  /** `get_indexer(method='backfill')`: the first position at or after `from`
      whose date is at or after `t`. */
  function BackfillFrom(dates: seq<Date>, t: Date, from: nat): (r: int)
    requires from <= |dates|
    ensures r == -1 || (from <= r < |dates| && dates[r] >= t)
    ensures forall j :: from <= j < (if r == -1 then |dates| else r) ==> dates[j] < t
    decreases |dates| - from
  {
    if from == |dates| then -1
    else if dates[from] >= t then from
    else BackfillFrom(dates, t, from + 1)
  }

  function BackfillIndex(dates: seq<Date>, t: Date): (r: int)
    ensures r == -1 || (0 <= r < |dates| && dates[r] >= t)
    ensures forall j :: 0 <= j < (if r == -1 then |dates| else r) ==> dates[j] < t
  {
    BackfillFrom(dates, t, 0)
  }

  /** Position `r` holds a date nearest to `t`, and no later position holds
      a date as near: ties go to the later date. */
  ghost predicate IsNearest(dates: seq<Date>, t: Date, r: int)
  {
    && 0 <= r < |dates|
    && (forall j :: 0 <= j < |dates| ==> Dist(dates[r], t) <= Dist(dates[j], t))
    && (forall j :: 0 <= j < |dates| && Dist(dates[j], t) == Dist(dates[r], t) ==> j <= r)
  }

  /** `get_indexer([t], method='nearest')[0]`: pandas takes the pad and the
      backfill positions and keeps the pad one only when it is strictly
      closer or there is no backfill one.  (pandas measures a missing pad
      position as if it were the last date; that distance never wins, so a
      missing pad position always yields the backfill one.) */
  function NearestIndex(dates: seq<Date>, t: Date): (r: int)
    requires Increasing(dates) && |dates| > 0
    ensures IsNearest(dates, t, r)
    ensures dates[0] <= dates[r] <= dates[|dates| - 1]
  {
    var l := PadIndex(dates, t);
    var h := BackfillIndex(dates, t);
    if h == -1 then l
    else if l == -1 then h
    else if t - dates[l] < dates[h] - t then l else h
  }
}
