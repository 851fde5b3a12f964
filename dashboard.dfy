/**
 * The dashboard's point summaries: the most a day can hold, today's points
 * and their share of that maximum, the total of the seven latest logged days
 * and its daily average.
 */
module Dashboard {
  import opened Wrappers
  import opened Js
  import opened Dates
  import opened Session
  import opened Tasks
  import opened TaskStore
  import opened DayTotals

  /** `maxDailyPoints`: the points of every task of the catalogue added up. */
  function MaxDailyPoints(): int
  {
    CataloguePoints(Catalogue())
  }

  /**
   * `maxDailyPoints`, the catalogue's point sum, is 100: 30 + 20 + 25 + 25.
   * A stored day can hold more, since saves are not deduplicated.
   */
  lemma MaxDailyPointsIsHundred()
    ensures MaxDailyPoints() == 100
  {
    CatalogueTotal();
  }

  /** `todayData?.totalPoints || 0`: the stored total of today's row, 0 without a row. */
  function TodayProgress(row: Option<DailyProgress>): (p: int)
    ensures row.None? ==> p == 0
    ensures row.Some? ==> p == row.value.totalPoints
  {
    if row.Some? && TruthyNumber(Some(row.value.totalPoints)) then row.value.totalPoints else 0
  }

  /** Today's progress is the sum of the points of every log saved for today, 0 when there is none. */
  lemma TodayProgressFromStore(store: ProgressStore, u: UserId, today: Day, backend: Backend)
    requires store.Valid() && backend != FetchFails
    ensures TodayProgress(store.GetDailyProgress(Some(u), today, backend)) == TotalPoints(LogsOn(store.RowsOf(u), today))
  {
    if today !in store.RowsOf(u) {
      assert LogsOn(store.RowsOf(u), today) == [];
    }
  }

  /** How many rows `slice(0, 7)` keeps. */
  function WeekLength(rows: seq<DailyProgress>): (k: nat)
    ensures k <= |rows| && k <= 7
    ensures k == 7 || k == |rows|
  {
    if |rows| < 7 then |rows| else 7
  }

  /** `weekProgress`: the totals of the first seven rows of the date-descending list added up. */
  function WeekProgress(rows: seq<DailyProgress>): int
  {
    SumTotals(rows[..WeekLength(rows)])
  }

  /**
   * The week total and the totals of the rows it leaves out make up the
   * total of all rows; with seven rows or fewer nothing is left out.
   */
  lemma WeekProgressSplit(rows: seq<DailyProgress>)
    ensures WeekProgress(rows) + SumTotals(rows[WeekLength(rows)..]) == SumTotals(rows)
    ensures |rows| <= 7 ==> WeekProgress(rows) == SumTotals(rows)
  {
    SumTotalsSplit(rows, WeekLength(rows));
    if |rows| <= 7 {
      assert rows[..|rows|] == rows;
    }
  }

  /**
   * On the rows the store returns, the week total is the sum of every log of
   * the (up to) seven latest logged dates, each later than every date left out.
   */
  lemma WeekProgressFromStore(store: ProgressStore, u: UserId, backend: Backend)
    requires store.Valid() && backend != FetchFails
    ensures var rows := store.GetAllDailyProgress(Some(u), backend);
      && WeekProgress(rows) == TotalPoints(AllLogs(rows[..WeekLength(rows)]))
      && forall i, j :: 0 <= i < WeekLength(rows) <= j < |rows| ==> rows[i].date > rows[j].date
  {
    var rows := store.GetAllDailyProgress(Some(u), backend);
    var week := rows[..WeekLength(rows)];
    assert forall i :: 0 <= i < |week| ==> week[i] == rows[i];
    SumTotalsCountsEveryLog(week);
  }

  /**
   * An illustration on fixed rows: the seven rows are the latest seven days
   * with logs, not the last seven calendar days, so three logged days a
   * fortnight apart all count. WeekProgressFromStore states the general fact.
   */
  lemma WeekIsLoggedDaysNotCalendarDays(rows: seq<DailyProgress>)
    requires rows == [DailyProgress(28, 10, [TaskLog(28, "kuoga", None, 10, 0)]),
                      DailyProgress(14, 10, [TaskLog(14, "kuoga", None, 10, 0)]),
                      DailyProgress(0, 10, [TaskLog(0, "kuoga", None, 10, 0)])]
    ensures rows[0].date - rows[2].date == 28
    ensures WeekProgress(rows) == 30
  {
    WeekProgressSplit(rows);
    var one, two := rows[..1], rows[..2];
    assert one[..0] == [] && two[..1] == one;
    assert SumTotals(one) == 10;
    assert SumTotals(two) == 20;
  }

  /** `weekProgress > 0 ? Math.round(weekProgress / 7) : 0`. */
  function AverageDaily(week: int): (a: int)
    ensures week <= 0 ==> a == 0
    ensures week > 0 ==> 0 <= a && 7 * a - 3 <= week <= 7 * a + 3
  {
    if week > 0 then RoundDiv(week, 7) else 0
  }

  /** Seven days of the same positive total average to exactly that total. */
  lemma AverageOfSteadyWeek(rows: seq<DailyProgress>, v: int)
    requires |rows| >= 7 && v > 0
    requires forall i :: 0 <= i < 7 ==> rows[i].totalPoints == v
    ensures WeekProgress(rows) == 7 * v
    ensures AverageDaily(WeekProgress(rows)) == v
  {
    var week := rows[..7];
    assert forall i :: 0 <= i < |week| ==> week[i] == rows[i];
    SumTotalsBounds(week, v, v);
    RoundDivUnique(7 * v, 7, v);
  }

  /** `Math.min((todayProgress / maxDailyPoints) * 100, 100)`. */
  function ProgressPercentage(today: int): (p: real)
    ensures p <= 100.0
    ensures p == 100.0 <==> today >= MaxDailyPoints()
    ensures today <= MaxDailyPoints() ==> p == today as real
  {
    MaxDailyPointsIsHundred();
    var raw := (today as real / MaxDailyPoints() as real) * 100.0;
    if raw < 100.0 then raw else 100.0
  }
}
