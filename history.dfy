/**
 * The history page's summaries over every stored day of the user: the total
 * of all points, the rounded average per day, the number of days, the task
 * name shown on each log's badge and each day's card.
 */
module History {
  import opened Wrappers
  import opened Js
  import opened Session
  import opened Tasks
  import opened TaskStore
  import opened DayTotals

  /** `totalAllTime`: every day's total added up. */
  function TotalAllTime(days: seq<DailyProgress>): int
  {
    SumTotals(days)
  }

  /** `history.length > 0 ? Math.round(totalAllTime / history.length) : 0`. */
  function AverageDaily(days: seq<DailyProgress>): (a: int)
    ensures |days| == 0 ==> a == 0
    ensures |days| > 0 ==> 2 * |days| * a - |days| <= 2 * TotalAllTime(days) < 2 * |days| * a + |days|
  {
    if |days| > 0 then RoundDiv(TotalAllTime(days), |days|) else 0
  }

  /** `history.length`: the number of days shown. */
  function DaysTracked(days: seq<DailyProgress>): nat
  {
    |days|
  }

  /**
   * On the rows the store returns, the total is the sum of every log the user
   * saved, and the days tracked are the distinct dates that hold a row.
   */
  lemma HistoryFromStore(store: ProgressStore, u: UserId, backend: Backend)
    requires store.Valid() && backend != FetchFails
    ensures var days := store.GetAllDailyProgress(Some(u), backend);
      && TotalAllTime(days) == TotalPoints(AllLogs(days))
      && DaysTracked(days) == |store.RowsOf(u).Keys|
      && forall i, j :: 0 <= i < j < |days| ==> days[i].date != days[j].date
  {
    var days := store.GetAllDailyProgress(Some(u), backend);
    SumTotalsCountsEveryLog(days);
    assert |store.RowsOf(u).Keys| == |store.RowsOf(u)|;
  }

  /** The rounded average lies between the smallest and the largest day total. */
  lemma AverageWithinDayTotals(days: seq<DailyProgress>, lo: int, hi: int)
    requires |days| > 0
    requires forall i :: 0 <= i < |days| ==> lo <= days[i].totalPoints <= hi
    ensures lo <= AverageDaily(days) <= hi
  {
    var n, a, t := |days|, AverageDaily(days), TotalAllTime(days);
    SumTotalsBounds(days, lo, hi);
    RoundedBetween(n, t, a, lo, hi);
  }

  /** An integer within half of t / n, where n * lo <= t <= n * hi, lies between lo and hi. */
  lemma RoundedBetween(n: int, t: int, a: int, lo: int, hi: int)
    requires n > 0 && n * lo <= t <= n * hi
    requires 2 * n * a - n <= 2 * t < 2 * n * a + n
    ensures lo <= a <= hi
  {
    if a > hi {
      // 2na - n >= 2n(hi + 1) - n = 2n hi + n > 2t
      assert 2 * n * a >= 2 * n * (hi + 1) by {
        MultiplyMonotone(2 * n, hi + 1, a);
      }
      assert false;
    }
    if a < lo {
      // 2na + n <= 2n(lo - 1) + n = 2n lo - n < 2t
      assert 2 * n * a <= 2 * n * (lo - 1) by {
        MultiplyMonotone(2 * n, a, lo - 1);
      }
      assert false;
    }
  }

  lemma MultiplyMonotone(m: int, x: int, y: int)
    requires m > 0 && x <= y
    ensures m * x <= m * y
  {
    assert m * y == m * x + m * (y - x);
  }

  /** `TASKS.find(t => t.id === taskId)`: the first task with that id, if any. */
  function FindTask(tasks: seq<Task>, taskId: string): (r: Option<Task>)
    ensures r.None? <==> forall i :: 0 <= i < |tasks| ==> tasks[i].id != taskId
    ensures r.Some? ==> exists i :: (0 <= i < |tasks| && tasks[i] == r.value && r.value.id == taskId &&
                                     forall j :: 0 <= j < i ==> tasks[j].id != taskId)
  {
    if tasks == [] then None
    else if tasks[0].id == taskId then Some(tasks[0])
    else
      var r := FindTask(tasks[1..], taskId);
      assert forall i :: 0 < i < |tasks| ==> tasks[i] == tasks[1..][i - 1];
      r
  }

  /** `getTaskName`: the found task's English name when it is non-empty, the id itself otherwise. */
  function GetTaskName(tasks: seq<Task>, taskId: string): (name: string)
    ensures FindTask(tasks, taskId).None? ==> name == taskId
    ensures FindTask(tasks, taskId).Some? ==>
      name == (if FindTask(tasks, taskId).value.nameEn != "" then FindTask(tasks, taskId).value.nameEn else taskId)
  {
    var task := FindTask(tasks, taskId);
    if task.Some? && Truthy(Some(task.value.nameEn)) then task.value.nameEn else taskId
  }

  /**
   * Over the catalogue, a badge shows the English name of the task a log
   * belongs to, and any id outside the catalogue shows as itself.
   */
  lemma CatalogueTaskNames(taskId: string)
    ensures forall i :: 0 <= i < |Catalogue()| ==> GetTaskName(Catalogue(), Catalogue()[i].id) == Catalogue()[i].nameEn
    ensures (forall i :: 0 <= i < |Catalogue()| ==> Catalogue()[i].id != taskId) ==> GetTaskName(Catalogue(), taskId) == taskId
  {
    forall i | 0 <= i < |Catalogue()|
      ensures GetTaskName(Catalogue(), Catalogue()[i].id) == Catalogue()[i].nameEn
    {
      CatalogueTaskName(Catalogue(), i);
    }
  }

  lemma CatalogueTaskName(c: seq<Task>, i: int)
    requires c == Catalogue() && 0 <= i < |c|
    ensures GetTaskName(c, c[i].id) == c[i].nameEn
  {
    CatalogueTaskIdsDistinct();
    TaskOfCatalogueWellFormed(c, i);
    DistinctTaskName(c, i);
  }

  /** In a list of tasks with distinct ids, a task's id finds that task's name when it has one. */
  lemma DistinctTaskName(tasks: seq<Task>, i: int)
    requires 0 <= i < |tasks| && tasks[i].nameEn != ""
    requires forall j, k :: 0 <= j < k < |tasks| ==> tasks[j].id != tasks[k].id
    ensures GetTaskName(tasks, tasks[i].id) == tasks[i].nameEn
  {
    var found := FindTask(tasks, tasks[i].id);
    var k :| 0 <= k < |tasks| && tasks[k] == found.value && found.value.id == tasks[i].id &&
      forall j :: 0 <= j < k ==> tasks[j].id != tasks[i].id;
    assert k == i;
  }

  /** What a day's card shows: its log count, whether "task" takes an "s", its total and one badge per log. */
  datatype DayCard = DayCard(logCount: nat, plural: bool, points: int, badges: seq<Badge>)

  /** A badge: the task name and the log's points. */
  datatype Badge = Badge(name: string, points: int)

  /** The card of one day, with `getTaskName` over `tasks` for the badges. */
  function CardOf(tasks: seq<Task>, day: DailyProgress): (card: DayCard)
    ensures card.logCount == |day.logs| && (card.plural <==> |day.logs| != 1)
    ensures card.points == day.totalPoints && |card.badges| == |day.logs|
    ensures forall i :: 0 <= i < |day.logs| ==>
      card.badges[i] == Badge(GetTaskName(tasks, day.logs[i].taskId), day.logs[i].points)
  {
    var n := |day.logs|;
    DayCard(n, n != 1, day.totalPoints,
      seq(n, i requires 0 <= i < n => Badge(GetTaskName(tasks, day.logs[i].taskId), day.logs[i].points)))
  }

  /** The points on the badges of a day, added up. */
  function BadgePoints(badges: seq<Badge>): int
  {
    if badges == [] then 0 else BadgePoints(badges[..|badges| - 1]) + badges[|badges| - 1].points
  }

  /** On a stored day the badges' points add up to the total the card shows. */
  lemma BadgesAddUpToDayTotal(tasks: seq<Task>, day: DailyProgress)
    requires ConsistentRow(day)
    ensures BadgePoints(CardOf(tasks, day).badges) == CardOf(tasks, day).points
  {
    BadgesMatchLogs(CardOf(tasks, day).badges, day.logs);
  }

  lemma {:induction false} BadgesMatchLogs(badges: seq<Badge>, logs: seq<TaskLog>)
    requires |badges| == |logs| && forall i :: 0 <= i < |logs| ==> badges[i].points == logs[i].points
    ensures BadgePoints(badges) == TotalPoints(logs)
  {
    if logs != [] {
      var n := |logs| - 1;
      BadgesMatchLogs(badges[..n], logs[..n]);
    }
  }
}
