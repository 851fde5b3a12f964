/**
 * The task-log store: one row per (user, date) holding the day's logs in the
 * order they were saved and their point total. Saving appends a log, removing
 * filters logs out, and the queries read a row, all rows of a user, or whether
 * a task counts as done on a day.
 */
module TaskStore {
  import opened Wrappers
  import opened Js
  import opened Dates
  import opened Tasks
  import opened DayOrder
  import opened Session

  /** One user's rows, keyed by their date. */
  type Days = map<Day, DailyProgress>

  /** Every row sits under its own date and carries the total of its logs. */
  predicate Consistent(days: Days)
  {
    forall d :: d in days ==> days[d].date == d && ConsistentRow(days[d])
  }

  /** The logs of a date's row, none when there is no row. */
  function LogsOn(days: Days, date: Day): seq<TaskLog>
  {
    if date in days then days[date].logs else []
  }

  /**
   * `saveTaskLog` on one user's rows: the log goes at the end of its date's
   * row (a new row when there was none), the total is recomputed, and every
   * other date keeps its row.
   */
  function Saved(days: Days, log: TaskLog): (r: Days)
    ensures log.date in r && LogsOn(r, log.date) == LogsOn(days, log.date) + [log]
    ensures forall d :: d != log.date ==> (d in r <==> d in days) && (d in days ==> r[d] == days[d])
    ensures Consistent(days) ==> Consistent(r)
  {
    days[log.date := MakeRow(log.date, LogsOn(days, log.date) + [log])]
  }

  /**
   * The filter of `removeTaskLog`. With a (non-empty) subtask id it matches
   * the logs of exactly that task and subtask; without one it matches every
   * log of the task, its subtask logs included.
   */
  predicate RemovalMatches(log: TaskLog, taskId: string, subtaskId: Option<string>)
  {
    if Truthy(subtaskId) then log.taskId == taskId && log.subtaskId == subtaskId
    else log.taskId == taskId
  }

  /** The logs that survive a removal, in their original order. */
  function Kept(logs: seq<TaskLog>, taskId: string, subtaskId: Option<string>): seq<TaskLog>
  {
    if logs == [] then []
    else (if RemovalMatches(logs[0], taskId, subtaskId) then [] else [logs[0]]) + Kept(logs[1..], taskId, subtaskId)
  }

  /** A removal takes out exactly the logs its filter matches, and nothing else. */
  lemma {:induction false} KeptMembers(logs: seq<TaskLog>, taskId: string, subtaskId: Option<string>)
    ensures forall log :: log in Kept(logs, taskId, subtaskId) <==> log in logs && !RemovalMatches(log, taskId, subtaskId)
    ensures |Kept(logs, taskId, subtaskId)| <= |logs|
  {
    if logs != [] {
      KeptMembers(logs[1..], taskId, subtaskId);
      assert logs == [logs[0]] + logs[1..];
    }
  }

  /** Removal works piecewise, so what survives keeps its relative order. */
  lemma {:induction false} KeptAppend(a: seq<TaskLog>, b: seq<TaskLog>, taskId: string, subtaskId: Option<string>)
    ensures Kept(a + b, taskId, subtaskId) == Kept(a, taskId, subtaskId) + Kept(b, taskId, subtaskId)
  {
    if a == [] {
      assert a + b == b;
    } else {
      var head := if RemovalMatches(a[0], taskId, subtaskId) then [] else [a[0]];
      assert (a + b)[0] == a[0];
      assert (a + b)[1..] == a[1..] + b;
      calc {
        Kept(a + b, taskId, subtaskId);
        head + Kept(a[1..] + b, taskId, subtaskId);
        { KeptAppend(a[1..], b, taskId, subtaskId); }
        head + (Kept(a[1..], taskId, subtaskId) + Kept(b, taskId, subtaskId));
        (head + Kept(a[1..], taskId, subtaskId)) + Kept(b, taskId, subtaskId);
      }
    }
  }

  /** A removal that matches no log keeps all of them. */
  lemma {:induction false} KeptNothingMatches(logs: seq<TaskLog>, taskId: string, subtaskId: Option<string>)
    requires forall log :: log in logs ==> !RemovalMatches(log, taskId, subtaskId)
    ensures Kept(logs, taskId, subtaskId) == logs
  {
    if logs != [] {
      assert logs[0] in logs;
      assert forall log :: log in logs[1..] ==> log in logs;
      KeptNothingMatches(logs[1..], taskId, subtaskId);
    }
  }

  /**
   * `removeTaskLog` on one user's rows: the date's row keeps the logs the
   * filter does not match, with the total recomputed; a date without a row is
   * left alone, and so is every other date.
   */
  function Removed(days: Days, date: Day, taskId: string, subtaskId: Option<string>): (r: Days)
    ensures r.Keys == days.Keys
    ensures LogsOn(r, date) == Kept(LogsOn(days, date), taskId, subtaskId)
    ensures forall d :: d != date && d in days ==> r[d] == days[d]
    ensures Consistent(days) ==> Consistent(r)
  {
    if date in days then days[date := MakeRow(date, Kept(days[date].logs, taskId, subtaskId))] else days
  }

  /**
   * The test of `isTaskCompleted`. With a (non-empty) subtask id a log of
   * exactly that task and subtask; without one, a log of the task that has no
   * subtask: subtask logs never complete the whole task.
   */
  predicate CompletionMatches(log: TaskLog, taskId: string, subtaskId: Option<string>)
  {
    if Truthy(subtaskId) then log.taskId == taskId && log.subtaskId == subtaskId
    else log.taskId == taskId && !Truthy(log.subtaskId)
  }

  /** The `some` over a row's logs. */
  function AnyCompletes(logs: seq<TaskLog>, taskId: string, subtaskId: Option<string>): (b: bool)
    ensures b <==> exists i :: 0 <= i < |logs| && CompletionMatches(logs[i], taskId, subtaskId)
  {
    if logs == [] then false
    else CompletionMatches(logs[0], taskId, subtaskId) || AnyCompletes(logs[1..], taskId, subtaskId)
  }

  /** Whatever was just saved counts as completed for its own task and subtask id. */
  lemma SaveThenCompleted(days: Days, log: TaskLog)
    ensures AnyCompletes(LogsOn(Saved(days, log), log.date), log.taskId, log.subtaskId)
  {
    var logs := LogsOn(Saved(days, log), log.date);
    assert logs[|logs| - 1] == log;
  }

  /** After a removal nothing on that date counts as completed for the same arguments. */
  lemma RemoveThenNotCompleted(days: Days, date: Day, taskId: string, subtaskId: Option<string>)
    ensures !AnyCompletes(LogsOn(Removed(days, date, taskId, subtaskId), date), taskId, subtaskId)
  {
    var logs := LogsOn(Removed(days, date, taskId, subtaskId), date);
    KeptMembers(LogsOn(days, date), taskId, subtaskId);
    forall i | 0 <= i < |logs| ensures !CompletionMatches(logs[i], taskId, subtaskId) {
      assert logs[i] in logs;
    }
  }

  /**
   * The asymmetry of removal: removing a whole task (no subtask id) also
   * clears every subtask of it, so none of them counts as completed after.
   */
  lemma RemoveTaskClearsSubtasks(days: Days, date: Day, taskId: string, subtaskId: string)
    ensures !AnyCompletes(LogsOn(Removed(days, date, taskId, None), date), taskId, Some(subtaskId))
  {
    var logs := LogsOn(Removed(days, date, taskId, None), date);
    KeptMembers(LogsOn(days, date), taskId, None);
    forall i | 0 <= i < |logs| ensures logs[i].taskId != taskId {
      assert logs[i] in logs;
    }
  }

  /**
   * The asymmetry of completion: saving a subtask log never makes the whole
   * task count as completed.
   */
  lemma SubtaskLogDoesNotCompleteTask(days: Days, log: TaskLog)
    requires Truthy(log.subtaskId)
    ensures AnyCompletes(LogsOn(Saved(days, log), log.date), log.taskId, None)
        == AnyCompletes(LogsOn(days, log.date), log.taskId, None)
  {
    var before := LogsOn(days, log.date);
    var after := LogsOn(Saved(days, log), log.date);
    assert after == before + [log];
    if AnyCompletes(before, log.taskId, None) {
      var i :| 0 <= i < |before| && CompletionMatches(before[i], log.taskId, None);
      assert after[i] == before[i];
    }
  }

  /** Saving does not deduplicate: the same log saved twice is stored twice. */
  lemma SaveTwiceStoresTwice(days: Days, log: TaskLog)
    ensures var twice := LogsOn(Saved(Saved(days, log), log), log.date);
      twice == LogsOn(days, log.date) + [log, log] &&
      multiset(twice)[log] == multiset(LogsOn(days, log.date))[log] + 2
  {
    var before := LogsOn(days, log.date);
    assert LogsOn(Saved(Saved(days, log), log), log.date) == before + [log] + [log];
    assert before + [log] + [log] == before + [log, log];
  }

  /**
   * Ticking and unticking: when nothing on the date matched the removal
   * before, saving a log that it matches and then removing restores the day's
   * logs (and so its total).
   */
  lemma SaveThenRemoveRestoresLogs(days: Days, log: TaskLog, subtaskId: Option<string>)
    requires RemovalMatches(log, log.taskId, subtaskId)
    requires forall l :: l in LogsOn(days, log.date) ==> !RemovalMatches(l, log.taskId, subtaskId)
    ensures LogsOn(Removed(Saved(days, log), log.date, log.taskId, subtaskId), log.date) == LogsOn(days, log.date)
  {
    var before := LogsOn(days, log.date);
    KeptAppend(before, [log], log.taskId, subtaskId);
    KeptNothingMatches(before, log.taskId, subtaskId);
    assert Kept([log], log.taskId, subtaskId) == [];
  }

  /**
   * A user's rows as `getAllDailyProgress` lists them: stored rows only,
   * ordered by date from the latest (RowsByDateDescComplete: all of them).
   */
  ghost function RowsByDateDesc(days: Days): (r: seq<DailyProgress>)
    requires Consistent(days)
    ensures forall i :: 0 <= i < |r| ==> r[i].date in days && days[r[i].date] == r[i]
    ensures forall i, j :: 0 <= i < j < |r| ==> r[i].date > r[j].date
  {
    var ds := DatesDesc(days.Keys);
    assert forall i :: 0 <= i < |ds| ==> ds[i] in days by {
      forall i | 0 <= i < |ds| ensures ds[i] in days {
        assert ds[i] in ds;
      }
    }
    seq(|ds|, i requires 0 <= i < |ds| => days[ds[i]])
  }

  /** Every stored row of the user is listed, each once. */
  lemma RowsByDateDescComplete(days: Days)
    requires Consistent(days)
    ensures |RowsByDateDesc(days)| == |days|
    ensures forall d :: d in days ==> days[d] in RowsByDateDesc(days)
  {
    var ds := DatesDesc(days.Keys);
    DatesDescComplete(days.Keys);
    var r := RowsByDateDesc(days);
    assert |r| == |ds|;
    forall d | d in days ensures days[d] in r {
      var i :| 0 <= i < |ds| && ds[i] == d;
      assert r[i] == days[d];
    }
  }

  /** The `daily_progress` table, as rows per user. */
  class ProgressStore {
    var table: map<UserId, Days>

    ghost predicate Valid()
      reads this
    {
      forall u :: u in table ==> Consistent(table[u])
    }

    /** A user's rows, none for an unknown user. */
    function RowsOf(u: UserId): Days
      reads this
    {
      if u in table then table[u] else map[]
    }

    constructor ()
      ensures table == map[] && Valid()
    {
      table := map[];
    }

    /**
     * `saveTaskLog`: without a user, or when the read fails with anything but
     * "no rows", or when the write fails, nothing changes; otherwise the log
     * is appended to its date's row (inserted when absent).
     */
    method SaveTaskLog(user: Option<UserId>, log: TaskLog, backend: Backend)
      requires Valid()
      modifies this
      ensures Valid()
      ensures table == if user.None? || backend != Healthy then old(table)
        else old(table)[user.value := Saved(old(RowsOf(user.value)), log)]
    {
      if user.None? || backend == FetchFails {
        return;
      }
      var u := user.value;
      var existing := RowsOf(u);
      var newDays := Saved(existing, log);
      if backend == WriteFails {
        return;
      }
      table := table[u := newDays];
    }

    /**
     * `removeTaskLog`: without a user, when the read fails, when the date has
     * no row, or when the write fails, nothing changes; otherwise the row
     * keeps the logs the filter does not match.
     */
    method RemoveTaskLog(user: Option<UserId>, date: Day, taskId: string, subtaskId: Option<string>, backend: Backend)
      requires Valid()
      modifies this
      ensures Valid()
      ensures table == if user.None? || backend != Healthy || date !in old(RowsOf(user.value)) then old(table)
        else old(table)[user.value := Removed(old(RowsOf(user.value)), date, taskId, subtaskId)]
    {
      if user.None? || backend == FetchFails || date !in RowsOf(user.value) {
        return;
      }
      var u := user.value;
      var newDays := Removed(RowsOf(u), date, taskId, subtaskId);
      if backend == WriteFails {
        return;
      }
      table := table[u := newDays];
    }

    /** `getDailyProgress`: the user's row for the date, if there is one and the read succeeds. */
    function GetDailyProgress(user: Option<UserId>, date: Day, backend: Backend): (r: Option<DailyProgress>)
      reads this
      requires Valid()
      ensures r.Some? <==> user.Some? && backend != FetchFails && date in RowsOf(user.value)
      ensures r.Some? ==> r.value.date == date && ConsistentRow(r.value) && r.value.logs == LogsOn(RowsOf(user.value), date)
    {
      if user.None? || backend == FetchFails then None
      else if date in RowsOf(user.value) then Some(RowsOf(user.value)[date])
      else None
    }

    /** `getAllDailyProgress`: all of the user's rows, latest date first; none on a failed read. */
    ghost function GetAllDailyProgress(user: Option<UserId>, backend: Backend): (r: seq<DailyProgress>)
      reads this
      requires Valid()
      ensures user.None? || backend == FetchFails ==> r == []
      ensures user.Some? && backend != FetchFails ==>
        |r| == |RowsOf(user.value)| && forall d :: d in RowsOf(user.value) ==> RowsOf(user.value)[d] in r
      ensures forall i :: 0 <= i < |r| ==> user.Some? && r[i].date in RowsOf(user.value) && RowsOf(user.value)[r[i].date] == r[i]
      ensures forall i :: 0 <= i < |r| ==> ConsistentRow(r[i])
      ensures forall i, j :: 0 <= i < j < |r| ==> r[i].date > r[j].date
    {
      if user.None? || backend == FetchFails then []
      else
        RowsByDateDescComplete(RowsOf(user.value));
        RowsByDateDesc(RowsOf(user.value))
    }

    /**
     * `isTaskCompleted`: whether some log of the user's row for the date
     * completes the task or subtask; false without a user, a row or a
     * successful read.
     */
    function IsTaskCompleted(user: Option<UserId>, date: Day, taskId: string, subtaskId: Option<string>, backend: Backend): (b: bool)
      reads this
      ensures b <==> (user.Some? && backend != FetchFails &&
        exists i :: 0 <= i < |LogsOn(RowsOf(user.value), date)| && CompletionMatches(LogsOn(RowsOf(user.value), date)[i], taskId, subtaskId))
    {
      user.Some? && backend != FetchFails && AnyCompletes(LogsOn(RowsOf(user.value), date), taskId, subtaskId)
    }

    /** The logs of the user's row for the date (the page's `getTaskLogsForDate`). */
    function GetTaskLogsForDate(user: Option<UserId>, date: Day): (logs: seq<TaskLog>)
      reads this
      ensures user.None? ==> logs == []
      ensures user.Some? && date !in RowsOf(user.value) ==> logs == []
      ensures user.Some? && date in RowsOf(user.value) ==> logs == RowsOf(user.value)[date].logs
    {
      if user.None? then [] else LogsOn(RowsOf(user.value), date)
    }
  }
}
