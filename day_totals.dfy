/**
 * Sums over a list of stored days, as the dashboard and the history page
 * compute them with `reduce((sum, day) => sum + day.totalPoints, 0)`.
 */
module DayTotals {
  import opened Tasks

  /** The sum of the days' stored totals, added up from the first day to the last. */
  function SumTotals(days: seq<DailyProgress>): int
  {
    if days == [] then 0 else SumTotals(days[..|days| - 1]) + days[|days| - 1].totalPoints
  }

  /** Summing two lists one after the other adds their sums. */
  lemma {:induction false} SumTotalsAppend(a: seq<DailyProgress>, b: seq<DailyProgress>)
    ensures SumTotals(a + b) == SumTotals(a) + SumTotals(b)
    decreases |b|
  {
    if b == [] {
      assert a + b == a;
    } else {
      assert (a + b)[..|a + b| - 1] == a + b[..|b| - 1];
      SumTotalsAppend(a, b[..|b| - 1]);
    }
  }

  /** Summing a prefix and the rest after it gives the sum of the whole list. */
  lemma SumTotalsSplit(days: seq<DailyProgress>, k: int)
    requires 0 <= k <= |days|
    ensures SumTotals(days[..k]) + SumTotals(days[k..]) == SumTotals(days)
  {
    assert days[..k] + days[k..] == days;
    SumTotalsAppend(days[..k], days[k..]);
  }

  /** Every log of every day, day after day. */
  function AllLogs(days: seq<DailyProgress>): seq<TaskLog>
  {
    if days == [] then [] else AllLogs(days[..|days| - 1]) + days[|days| - 1].logs
  }

  /** When each day's total is the sum of its logs, the sum of the totals is the sum of all logs. */
  lemma {:induction false} SumTotalsCountsEveryLog(days: seq<DailyProgress>)
    requires forall i :: 0 <= i < |days| ==> ConsistentRow(days[i])
    ensures SumTotals(days) == TotalPoints(AllLogs(days))
  {
    if days != [] {
      var init, last := days[..|days| - 1], days[|days| - 1];
      assert forall i :: 0 <= i < |init| ==> init[i] == days[i];
      SumTotalsCountsEveryLog(init);
      TotalPointsAppend(AllLogs(init), last.logs);
    }
  }

  /** Days whose totals all lie between lo and hi sum to between n * lo and n * hi. */
  lemma {:induction false} SumTotalsBounds(days: seq<DailyProgress>, lo: int, hi: int)
    requires forall i :: 0 <= i < |days| ==> lo <= days[i].totalPoints <= hi
    ensures |days| * lo <= SumTotals(days) <= |days| * hi
  {
    if days != [] {
      var init := days[..|days| - 1];
      assert forall i :: 0 <= i < |init| ==> init[i] == days[i];
      SumTotalsBounds(init, lo, hi);
      assert |days| * lo == |init| * lo + lo;
      assert |days| * hi == |init| * hi + hi;
    }
  }
}
