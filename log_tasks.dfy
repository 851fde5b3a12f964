/**
 * The task-logging page: the ticked-key set it keeps for the selected day,
 * the points shown for that day, the title above them, and the three
 * handlers that read and change the store: loading the day, toggling one
 * task or subtask, and completing every subtask of a task at once.
 */
module LogTasks {
  import opened Wrappers
  import opened Js
  import opened Dates
  import opened Periods
  import opened Session
  import opened Tasks
  import opened TaskStore
  import opened Language
  import opened TaskCard

  // ---------------------------------------------------------------------------
  // Toggling one key

  /** The key of a toggle: `taskId-subtaskId` with a (non-empty) subtask id, the bare task id without. */
  function ToggleKey(taskId: string, subtaskId: Option<string>): string
  {
    if Truthy(subtaskId) then CompletionKey(taskId, subtaskId.value) else taskId
  }

  /** The ticked set after a toggle: the key's membership flips, every other key stays as it was. */
  function Toggled(s: set<string>, key: string): (t: set<string>)
    ensures key in t <==> key !in s
    ensures forall k :: k != key ==> (k in t <==> k in s)
  {
    if key in s then s - {key} else s + {key}
  }

  /** Toggling the same key twice gives back the original set. */
  lemma ToggleTwice(s: set<string>, key: string)
    ensures Toggled(Toggled(s, key), key) == s
  {
  }

  /**
   * The card's checkboxes toggle the keys the card reads: the simple-mode box
   * the bare task id, a detailed-mode box its subtask's key; and the points
   * they pass get past the handler's `!points` guard.
   */
  lemma CardTogglesItsOwnKey(task: Task, j: int)
    requires WellFormedTask(task)
    requires 0 <= j < |task.subtasks| && task.subtasks[j].id != ""
    ensures var a := SimpleToggle(task); ToggleKey(a.taskId, a.subtaskId) == task.id && TruthyNumber(a.points)
    ensures var a := DetailedToggle(task, task.subtasks[j]);
      ToggleKey(a.taskId, a.subtaskId) == CompletionKey(task.id, task.subtasks[j].id) && TruthyNumber(a.points)
  {
  }

  /**
   * After a toggle that reached the store, the page's set and the store agree
   * on the toggled key: a save makes it complete, a removal makes it not.
   */
  lemma ToggleAgreesWithStore(days: Days, date: Day, taskId: string, subtaskId: Option<string>, points: int, now: int, wasTicked: bool)
    ensures var log := TaskLog(date, taskId, subtaskId, points, now);
      var after := if wasTicked then Removed(days, date, taskId, subtaskId) else Saved(days, log);
      AnyCompletes(LogsOn(after, date), taskId, subtaskId) == !wasTicked
  {
    if wasTicked {
      RemoveThenNotCompleted(days, date, taskId, subtaskId);
    } else {
      SaveThenCompleted(days, TaskLog(date, taskId, subtaskId, points, now));
    }
  }

  // ---------------------------------------------------------------------------
  // Completing a whole task

  /** The log one subtask gets when it is not ticked yet, none when it is. */
  function MissingLog(taskId: string, sub: SubTask, completed: set<string>, date: Day, now: int): seq<TaskLog>
  {
    if CompletionKey(taskId, sub.id) in completed then [] else [TaskLog(date, taskId, Some(sub.id), sub.points, now)]
  }

  /** The logs "complete all" saves: one per subtask not ticked yet, in subtask order. */
  function MissingLogs(taskId: string, subs: seq<SubTask>, completed: set<string>, date: Day, now: int): (r: seq<TaskLog>)
    ensures |r| <= |subs|
    ensures forall l :: l in r ==> l.date == date && l.taskId == taskId
  {
    if subs == [] then []
    else MissingLog(taskId, subs[0], completed, date, now) + MissingLogs(taskId, subs[1..], completed, date, now)
  }

  lemma {:induction false} MissingLogsAppend(taskId: string, a: seq<SubTask>, b: seq<SubTask>, completed: set<string>, date: Day, now: int)
    ensures MissingLogs(taskId, a + b, completed, date, now) == MissingLogs(taskId, a, completed, date, now) + MissingLogs(taskId, b, completed, date, now)
  {
    if a == [] {
      assert a + b == b;
    } else {
      assert (a + b)[0] == a[0];
      assert (a + b)[1..] == a[1..] + b;
      MissingLogsAppend(taskId, a[1..], b, completed, date, now);
    }
  }

  /**
   * One more subtask: when its key is not ticked its log joins the missing
   * logs of the subtasks before it, and in any case its key joins their keys.
   */
  lemma CompleteStep(taskId: string, subs: seq<SubTask>, i: int, completed: set<string>, date: Day, now: int)
    requires 0 <= i < |subs|
    ensures CompletionKey(taskId, subs[i].id) in completed ==>
      MissingLogs(taskId, subs[..i + 1], completed, date, now) == MissingLogs(taskId, subs[..i], completed, date, now)
    ensures CompletionKey(taskId, subs[i].id) !in completed ==>
      MissingLogs(taskId, subs[..i + 1], completed, date, now) ==
        MissingLogs(taskId, subs[..i], completed, date, now) + [TaskLog(date, taskId, Some(subs[i].id), subs[i].points, now)]
    ensures SubtaskKeys(taskId, subs[..i + 1]) == SubtaskKeys(taskId, subs[..i]) + {CompletionKey(taskId, subs[i].id)}
  {
    assert subs[..i + 1] == subs[..i] + [subs[i]];
    MissingLogsAppend(taskId, subs[..i], [subs[i]], completed, date, now);
    assert MissingLogs(taskId, [subs[i]], completed, date, now) == MissingLog(taskId, subs[i], completed, date, now) + [];
    assert MissingLogs(taskId, subs[..i], completed, date, now) + [] == MissingLogs(taskId, subs[..i], completed, date, now);
    assert subs[..i + 1][..i] == subs[..i];
  }

  /** A log saved after others adds its points to theirs. */
  lemma TotalPointsSnoc(logs: seq<TaskLog>, log: TaskLog)
    ensures TotalPoints(logs + [log]) == TotalPoints(logs) + log.points
  {
    assert (logs + [log])[..|logs|] == logs;
  }

  /** The completion keys of a task's subtasks. */
  function SubtaskKeys(taskId: string, subs: seq<SubTask>): set<string>
  {
    if subs == [] then {} else SubtaskKeys(taskId, subs[..|subs| - 1]) + {CompletionKey(taskId, subs[|subs| - 1].id)}
  }

  /** The keys are exactly those of the subtasks. */
  lemma {:induction false} SubtaskKeysMembers(taskId: string, subs: seq<SubTask>, k: string)
    ensures k in SubtaskKeys(taskId, subs) <==> exists j :: 0 <= j < |subs| && k == CompletionKey(taskId, subs[j].id)
  {
    if subs != [] {
      var init := subs[..|subs| - 1];
      SubtaskKeysMembers(taskId, init, k);
      assert forall j :: 0 <= j < |init| ==> init[j] == subs[j];
    }
  }

  /** One save per subtask that was not ticked: the saves and the ticked count make up all subtasks. */
  lemma {:induction false} OneSavePerMissingSubtask(taskId: string, subs: seq<SubTask>, completed: set<string>, date: Day, now: int)
    ensures |MissingLogs(taskId, subs, completed, date, now)| + CountCompleted(taskId, subs, completed) == |subs|
  {
    if subs != [] {
      OneSavePerMissingSubtask(taskId, subs[1..], completed, date, now);
    }
  }

  /** The points "complete all" adds are those of the subtasks not ticked yet: never more than all of them. */
  lemma {:induction false} MissingPointsBound(taskId: string, subs: seq<SubTask>, completed: set<string>, date: Day, now: int)
    requires forall j :: 0 <= j < |subs| ==> subs[j].points > 0
    ensures 0 <= TotalPoints(MissingLogs(taskId, subs, completed, date, now)) <= SubtaskPoints(subs)
  {
    if subs != [] {
      MissingPointsBound(taskId, subs[1..], completed, date, now);
      TotalPointsAppend(MissingLog(taskId, subs[0], completed, date, now), MissingLogs(taskId, subs[1..], completed, date, now));
      assert TotalPoints([TaskLog(date, taskId, Some(subs[0].id), subs[0].points, now)]) == subs[0].points;
    }
  }

  /** With nothing of the task ticked, "complete all" saves every subtask and adds all of their points. */
  lemma {:induction false} MissingFromNothing(taskId: string, subs: seq<SubTask>, completed: set<string>, date: Day, now: int)
    requires forall j :: 0 <= j < |subs| ==> CompletionKey(taskId, subs[j].id) !in completed
    ensures |MissingLogs(taskId, subs, completed, date, now)| == |subs|
    ensures TotalPoints(MissingLogs(taskId, subs, completed, date, now)) == SubtaskPoints(subs)
  {
    if subs != [] {
      assert CompletionKey(taskId, subs[0].id) !in completed;
      assert forall j :: 0 <= j < |subs[1..]| ==> subs[1..][j] == subs[j + 1];
      MissingFromNothing(taskId, subs[1..], completed, date, now);
      TotalPointsAppend(MissingLog(taskId, subs[0], completed, date, now), MissingLogs(taskId, subs[1..], completed, date, now));
      assert TotalPoints([TaskLog(date, taskId, Some(subs[0].id), subs[0].points, now)]) == subs[0].points;
    }
  }

  /** For a well-formed task, the points "complete all" adds lie between 0 and the task's points, reached from nothing ticked. */
  lemma CompleteCategoryPoints(task: Task, completed: set<string>, date: Day, now: int)
    requires WellFormedTask(task)
    ensures 0 <= TotalPoints(MissingLogs(task.id, task.subtasks, completed, date, now)) <= task.points
    ensures (forall j :: 0 <= j < |task.subtasks| ==> CompletionKey(task.id, task.subtasks[j].id) !in completed) ==>
      TotalPoints(MissingLogs(task.id, task.subtasks, completed, date, now)) == task.points
  {
    MissingPointsBound(task.id, task.subtasks, completed, date, now);
    if forall j :: 0 <= j < |task.subtasks| ==> CompletionKey(task.id, task.subtasks[j].id) !in completed {
      MissingFromNothing(task.id, task.subtasks, completed, date, now);
    }
  }

  /** Once every subtask key is ticked, "complete all" has nothing left to save. */
  lemma {:induction false} CompleteCategoryIdempotent(taskId: string, subs: seq<SubTask>, completed: set<string>, date: Day, now: int)
    requires SubtaskKeys(taskId, subs) <= completed
    ensures MissingLogs(taskId, subs, completed, date, now) == []
  {
    if subs != [] {
      SubtaskKeysMembers(taskId, subs, CompletionKey(taskId, subs[0].id));
      assert SubtaskKeys(taskId, subs[1..]) <= SubtaskKeys(taskId, subs) by {
        forall k | k in SubtaskKeys(taskId, subs[1..]) ensures k in SubtaskKeys(taskId, subs) {
          SubtaskKeysMembers(taskId, subs[1..], k);
          SubtaskKeysMembers(taskId, subs, k);
          var j :| 0 <= j < |subs[1..]| && k == CompletionKey(taskId, subs[1..][j].id);
          assert subs[1..][j] == subs[j + 1];
        }
      }
      CompleteCategoryIdempotent(taskId, subs[1..], completed, date, now);
    }
  }

  /** After "complete all" the card counts every subtask as ticked. */
  lemma CompleteCategoryTicksAll(task: Task, completed: set<string>)
    ensures CompletedSubtasks(task, completed + SubtaskKeys(task.id, task.subtasks)) == |task.subtasks|
  {
    var after := completed + SubtaskKeys(task.id, task.subtasks);
    forall j | 0 <= j < |task.subtasks| ensures CompletionKey(task.id, task.subtasks[j].id) in after {
      SubtaskKeysMembers(task.id, task.subtasks, CompletionKey(task.id, task.subtasks[j].id));
    }
    CountCompletedAll(task.id, task.subtasks, after);
  }

  /** The store after saving logs one after the other. */
  function SavedAll(days: Days, logs: seq<TaskLog>): Days
  {
    if logs == [] then days else Saved(SavedAll(days, logs[..|logs| - 1]), logs[|logs| - 1])
  }

  /** Saving one more log after a run of saves. */
  lemma SavedAllSnoc(days: Days, logs: seq<TaskLog>, log: TaskLog)
    ensures SavedAll(days, logs + [log]) == Saved(SavedAll(days, logs), log)
  {
    assert (logs + [log])[..|logs|] == logs;
  }

  /**
   * The table after a run of saves for one user: unchanged when the backend
   * fails or nothing was saved, otherwise the user's rows with every log saved.
   */
  function SavesApplied(table: map<UserId, Days>, u: UserId, logs: seq<TaskLog>, backend: Backend): map<UserId, Days>
  {
    if backend != Healthy || logs == [] then table
    else table[u := SavedAll(if u in table then table[u] else map[], logs)]
  }

  /** One more save on top of a run of saves, with a healthy backend. */
  lemma SavesAppliedStep(table: map<UserId, Days>, u: UserId, logs: seq<TaskLog>, log: TaskLog)
    ensures var t := SavesApplied(table, u, logs, Healthy);
      SavesApplied(table, u, logs + [log], Healthy) == t[u := Saved(if u in t then t[u] else map[], log)]
  {
    if logs == [] {
      FirstSaveApplied(table, u, log);
    } else {
      NextSaveApplied(table, u, logs, log);
    }
  }

  lemma FirstSaveApplied(table: map<UserId, Days>, u: UserId, log: TaskLog)
    ensures SavesApplied(table, u, [] + [log], Healthy) == table[u := Saved(if u in table then table[u] else map[], log)]
  {
    SavedAllSnoc(if u in table then table[u] else map[], [], log);
  }

  lemma NextSaveApplied(table: map<UserId, Days>, u: UserId, logs: seq<TaskLog>, log: TaskLog)
    requires logs != []
    ensures var rows := SavedAll(if u in table then table[u] else map[], logs);
      SavesApplied(table, u, logs + [log], Healthy) == table[u := rows][u := Saved(rows, log)]
  {
    var rows := if u in table then table[u] else map[];
    SavedAllSnoc(rows, logs, log);
    Overwrite(table, u, SavedAll(rows, logs), SavedAll(rows, logs + [log]));
  }

  /** A second update of the same key replaces the first. */
  lemma Overwrite<K, V>(m: map<K, V>, k: K, a: V, b: V)
    ensures m[k := a][k := b] == m[k := b]
  {
  }

  /** Adding a key that was not ticked, or skipping one that was, both extend the ticked set by that key. */
  lemma AddKey(completed: set<string>, keys: set<string>, ticked: set<string>, key: string)
    requires ticked == completed + keys
    ensures key !in completed ==> ticked + {key} == completed + (keys + {key})
    ensures key in completed ==> ticked == completed + (keys + {key})
  {
  }

  /** Saving logs of one date one after the other appends them to that date's row, in order. */
  lemma {:induction false} SavedAllAppends(days: Days, logs: seq<TaskLog>, date: Day)
    requires forall i :: 0 <= i < |logs| ==> logs[i].date == date
    ensures LogsOn(SavedAll(days, logs), date) == LogsOn(days, date) + logs
  {
    if logs != [] {
      var init, last := logs[..|logs| - 1], logs[|logs| - 1];
      SplitLast(logs, init, date);
      SavedAllAppends(days, init, date);
      AppendOne(LogsOn(days, date), init, last, logs);
    }
  }

  /** A non-empty run of logs of one date is its first logs, all of that date, and a last one. */
  lemma SplitLast(logs: seq<TaskLog>, init: seq<TaskLog>, date: Day)
    requires logs != [] && forall i :: 0 <= i < |logs| ==> logs[i].date == date
    requires init == logs[..|logs| - 1]
    ensures logs == init + [logs[|logs| - 1]] && logs[|logs| - 1].date == date
    ensures forall i :: 0 <= i < |init| ==> init[i].date == date
  {
    assert logs == init + [logs[|logs| - 1]];
  }

  lemma AppendOne(a: seq<TaskLog>, init: seq<TaskLog>, last: TaskLog, logs: seq<TaskLog>)
    requires logs == init + [last]
    ensures a + init + [last] == a + logs
  {
  }

  /** ... and leaves the rows of every other date as they were. */
  lemma {:induction false} SavedAllKeepsOtherDates(days: Days, logs: seq<TaskLog>, date: Day, d: Day)
    requires forall l :: l in logs ==> l.date == date
    requires d != date
    ensures LogsOn(SavedAll(days, logs), d) == LogsOn(days, d)
  {
    if logs != [] {
      var init := logs[..|logs| - 1];
      assert forall l :: l in init ==> l in logs;
      SavedAllKeepsOtherDates(days, init, date, d);
      assert logs[|logs| - 1] in logs;
    }
  }

  // ---------------------------------------------------------------------------
  // Loading the day

  /** What one completion query is asked about: the user, the day, and how the backend answers. */
  datatype Query = Query(user: Option<UserId>, date: Day, backend: Backend)

  /** The keys of the subtasks the store reports done. */
  function DoneSubKeys(store: ProgressStore, q: Query, taskId: string, subs: seq<SubTask>): set<string>
    reads store
  {
    if subs == [] then {}
    else
      var last := subs[|subs| - 1];
      DoneSubKeys(store, q, taskId, subs[..|subs| - 1]) +
      (if store.IsTaskCompleted(q.user, q.date, taskId, Some(last.id), q.backend) then {CompletionKey(taskId, last.id)} else {})
  }

  /** The set `fetchData` builds: the keys of all subtasks of all tasks the store reports done. */
  function DoneKeys(store: ProgressStore, q: Query, tasks: seq<Task>): set<string>
    reads store
  {
    if tasks == [] then {}
    else DoneKeys(store, q, tasks[..|tasks| - 1]) + DoneSubKeys(store, q, tasks[|tasks| - 1].id, tasks[|tasks| - 1].subtasks)
  }

  /** One more subtask in `fetchData`'s inner loop. */
  lemma DoneSubStep(store: ProgressStore, q: Query, taskId: string, subs: seq<SubTask>, j: int, done: bool, before: set<string>, completed: set<string>)
    requires 0 <= j < |subs| && completed == before + DoneSubKeys(store, q, taskId, subs[..j])
    requires done == store.IsTaskCompleted(q.user, q.date, taskId, Some(subs[j].id), q.backend)
    ensures (if done then completed + {CompletionKey(taskId, subs[j].id)} else completed) == before + DoneSubKeys(store, q, taskId, subs[..j + 1])
  {
    assert subs[..j + 1][..j] == subs[..j];
  }

  /** One more task in `fetchData`'s outer loop. */
  lemma DoneStep(store: ProgressStore, q: Query, tasks: seq<Task>, i: int, before: set<string>, completed: set<string>)
    requires 0 <= i < |tasks| && before == DoneKeys(store, q, tasks[..i])
    requires completed == before + DoneSubKeys(store, q, tasks[i].id, tasks[i].subtasks[..|tasks[i].subtasks|])
    ensures completed == DoneKeys(store, q, tasks[..i + 1])
  {
    assert tasks[i].subtasks[..|tasks[i].subtasks|] == tasks[i].subtasks;
    assert tasks[..i + 1][..i] == tasks[..i];
  }

  lemma {:induction false} DoneSubKeysMembers(store: ProgressStore, q: Query, taskId: string, subs: seq<SubTask>, k: string)
    ensures k in DoneSubKeys(store, q, taskId, subs) <==>
      exists j :: 0 <= j < |subs| && k == CompletionKey(taskId, subs[j].id) &&
        store.IsTaskCompleted(q.user, q.date, taskId, Some(subs[j].id), q.backend)
  {
    if subs != [] {
      var init := subs[..|subs| - 1];
      DoneSubKeysMembers(store, q, taskId, init, k);
      assert forall j :: 0 <= j < |init| ==> init[j] == subs[j];
    }
  }

  lemma {:induction false} DoneKeysMembers(store: ProgressStore, q: Query, tasks: seq<Task>, k: string)
    ensures k in DoneKeys(store, q, tasks) <==>
      exists i :: 0 <= i < |tasks| && k in DoneSubKeys(store, q, tasks[i].id, tasks[i].subtasks)
  {
    if tasks != [] {
      var init := tasks[..|tasks| - 1];
      DoneKeysMembers(store, q, init, k);
      assert forall i :: 0 <= i < |init| ==> init[i] == tasks[i];
    }
  }

  /**
   * When no task id contains '-', the loaded set ticks a task's subtask
   * exactly when the store reports that subtask done.
   */
  lemma DoneKeysMeans(store: ProgressStore, q: Query, tasks: seq<Task>, i: int, j: int)
    requires forall n :: 0 <= n < |tasks| ==> '-' !in tasks[n].id
    requires 0 <= i < |tasks| && 0 <= j < |tasks[i].subtasks|
    ensures CompletionKey(tasks[i].id, tasks[i].subtasks[j].id) in DoneKeys(store, q, tasks) <==>
      store.IsTaskCompleted(q.user, q.date, tasks[i].id, Some(tasks[i].subtasks[j].id), q.backend)
  {
    var taskId, subId := tasks[i].id, tasks[i].subtasks[j].id;
    var k := CompletionKey(taskId, subId);
    DoneKeysMembers(store, q, tasks, k);
    DoneSubKeysMembers(store, q, taskId, tasks[i].subtasks, k);
    if k in DoneKeys(store, q, tasks) {
      var i' :| 0 <= i' < |tasks| && k in DoneSubKeys(store, q, tasks[i'].id, tasks[i'].subtasks);
      DoneSubKeysMembers(store, q, tasks[i'].id, tasks[i'].subtasks, k);
      var j' :| 0 <= j' < |tasks[i'].subtasks| && k == CompletionKey(tasks[i'].id, tasks[i'].subtasks[j'].id) &&
        store.IsTaskCompleted(q.user, q.date, tasks[i'].id, Some(tasks[i'].subtasks[j'].id), q.backend);
      CompletionKeyInjective(tasks[i'].id, tasks[i'].subtasks[j'].id, taskId, subId);
    }
  }

  // ---------------------------------------------------------------------------
  // The title

  /** date-fns' `EEEE`: the weekday's full English name, Sunday first. */
  function WeekdayName(w: int): string
    requires 0 <= w < 7
  {
    ["Sunday", "Monday", "Tuesday", "Wednesday", "Thursday", "Friday", "Saturday"][w]
  }

  /** date-fns' `MMMM`: the month's full English name. */
  function MonthName(m: int): string
    requires 1 <= m <= 12
  {
    ["January", "February", "March", "April", "May", "June", "July",
     "August", "September", "October", "November", "December"][m - 1]
  }

  /** `format(date, "EEEE, MMMM d")`. */
  function LongDate(z: Day): (s: string)
    ensures |s| >= 2 && s[0] == WeekdayName(Weekday(z))[0] && s[1] == WeekdayName(Weekday(z))[1]
  {
    CivilRoundTrip(z);
    var s := WeekdayName(Weekday(z)) + ", " + MonthName(Month(z)) + " " + Decimal(DayOfMonth(z));
    s
  }

  /** No weekday name begins like "Today". */
  lemma NoWeekdayLooksLikeToday(w: int)
    requires 0 <= w < 7
    ensures WeekdayName(w)[0] != 'T' || WeekdayName(w)[1] != 'o'
  {
    var names := ["Sunday", "Monday", "Tuesday", "Wednesday", "Thursday", "Friday", "Saturday"];
    assert WeekdayName(w) == names[w];
    if w == 2 {
      assert names[2][1] == 'u';
    } else if w == 4 {
      assert names[4][1] == 'h';
    } else {
      assert names[w][0] != 'T';
    }
  }

  /**
   * `getTaskTitle`: "Today" when the selected day has today's year, month and
   * day of month, the long date otherwise.
   */
  function TaskTitle(selected: Day, today: Day): (s: string)
    ensures s == "Today" <==> selected == today
    ensures selected != today ==> s == LongDate(selected)
  {
    CivilInjective(selected, today);
    NoWeekdayLooksLikeToday(Weekday(selected));
    if Year(selected) == Year(today) && Month(selected) == Month(today) && DayOfMonth(selected) == DayOfMonth(today) then
      "Today"
    else
      assert LongDate(selected)[0] != 'T' || LongDate(selected)[1] != 'o';
      assert "Today"[0] == 'T' && "Today"[1] == 'o';
      LongDate(selected)
  }

  /** The title of Wednesday 2024-03-13 (day 19795) seen on another day. */
  lemma TitleOfAWednesday(selected: Day, today: Day)
    requires selected == 19795 && today != selected
    ensures TaskTitle(selected, today) == "Wednesday, March 13"
  {
    WednesdayWeek(selected);
    assert LongDate(selected) == WeekdayName(3) + ", " + MonthName(3) + " " + Decimal(13);
    WednesdayMarch13Text();
  }

  lemma WednesdayMarch13Text()
    ensures WeekdayName(3) + ", " + MonthName(3) + " " + Decimal(13) == "Wednesday, March 13"
  {
    assert Decimal(13) == "13";
  }

  // ---------------------------------------------------------------------------
  // The label of the "Complete All" button

  /** As written: `Complete All {t(task.id)}`, which looks the bare task id up. */
  function CompleteAllLabelAsWritten(l: Lang, task: Task): string
  {
    "Complete All " + T(l, task.id)
  }

  /**
   * No table has a catalogue task's bare id as a key, so in every language
   * the button shows the raw id ("Complete All kuoga"), not the name the
   * card above it shows.
   */
  lemma CompleteAllLabelShowsRawId(l: Lang, c: seq<Task>, i: int)
    requires c == Catalogue() && 0 <= i < |c|
    ensures CompleteAllLabelAsWritten(l, c[i]) == "Complete All " + c[i].id
    ensures CompleteAllLabelAsWritten(l, c[i]) != "Complete All " + DisplayName(l, c[i].nameEn, c[i].nameSw)
  {
    if i == 0 {
      RawIdOutsideTable(l, c[i], "kuoga");
    } else if i == 1 {
      RawIdOutsideTable(l, c[i], "kufua");
    } else if i == 2 {
      RawIdOutsideTable(l, c[i], "kusafisha");
    } else {
      RawIdOutsideTable(l, c[i], "kupika");
    }
    LabelOfRawId(l, c[i]);
  }

  /** A catalogue id has no table entry of its own and differs from the task's shown name. */
  lemma RawIdOutsideTable(l: Lang, t: Task, id: string)
    requires t.id == id && id in {"kuoga", "kufua", "kusafisha", "kupika"}
    requires t.nameEn != "" && t.nameEn[0] != id[0] && t.nameSw != "" && t.nameSw[0] != id[0]
    ensures t.id !in Table(l) && T(l, t.id) == t.id
    ensures t.id != DisplayName(l, t.nameEn, t.nameSw)
  {
    TFallsBackOnlyForMissingKeys(l, id);
    var name := DisplayName(l, t.nameEn, t.nameSw);
    assert name[0] != id[0];
  }

  /** An id shown as written makes a label other than the one naming the task. */
  lemma LabelOfRawId(l: Lang, t: Task)
    requires T(l, t.id) == t.id && t.id != DisplayName(l, t.nameEn, t.nameSw)
    ensures CompleteAllLabelAsWritten(l, t) == "Complete All " + t.id
    ensures CompleteAllLabelAsWritten(l, t) != "Complete All " + DisplayName(l, t.nameEn, t.nameSw)
  {
    var name := DisplayName(l, t.nameEn, t.nameSw);
    assert ("Complete All " + t.id)[13..] == t.id;
    assert ("Complete All " + name)[13..] == name;
  }

  /** Corrected: `Complete All {t(`category.${task.id}`)}`, the key each table holds for a task. */
  function CompleteAllLabel(l: Lang, task: Task): (s: string)
    ensures CategoryKey(task.id) in Table(l) ==> s == "Complete All " + Table(l)[CategoryKey(task.id)]
  {
    if CategoryKey(task.id) in Table(l) then
      TDefined(l, CategoryKey(task.id));
      "Complete All " + T(l, CategoryKey(task.id))
    else
      "Complete All " + T(l, CategoryKey(task.id))
  }

  /** The translation key of a task's name: `category.<task id>`. */
  function CategoryKey(taskId: string): string
  {
    "category." + taskId
  }

  /** With the corrected key the button names each catalogue task as its card does, in every language. */
  lemma CompleteAllLabelNamesTheTask(l: Lang, c: seq<Task>, i: int)
    requires c == Catalogue() && 0 <= i < |c|
    ensures CompleteAllLabel(l, c[i]) == "Complete All " + DisplayName(l, c[i].nameEn, c[i].nameSw)
  {
    if i == 0 {
      KuogaLabel(l, c[i]);
    } else if i == 1 {
      KufuaLabel(l, c[i]);
    } else if i == 2 {
      KusafishaLabel(l, c[i]);
    } else {
      KupikaLabel(l, c[i]);
    }
  }

  lemma KuogaLabel(l: Lang, t: Task)
    requires t == Kuoga()
    ensures CompleteAllLabel(l, t) == "Complete All " + DisplayName(l, t.nameEn, t.nameSw)
  {
    CategoryEntry(l, t, "category.kuoga");
  }

  lemma KufuaLabel(l: Lang, t: Task)
    requires t == Kufua()
    ensures CompleteAllLabel(l, t) == "Complete All " + DisplayName(l, t.nameEn, t.nameSw)
  {
    CategoryEntry(l, t, "category.kufua");
  }

  lemma KusafishaLabel(l: Lang, t: Task)
    requires t == Kusafisha()
    ensures CompleteAllLabel(l, t) == "Complete All " + DisplayName(l, t.nameEn, t.nameSw)
  {
    CategoryEntry(l, t, "category.kusafisha");
  }

  lemma KupikaLabel(l: Lang, t: Task)
    requires t == Kupika()
    ensures CompleteAllLabel(l, t) == "Complete All " + DisplayName(l, t.nameEn, t.nameSw)
  {
    CategoryEntry(l, t, "category.kupika");
  }

  /** One task's entry: when each table holds the card's name under the task's category key, the button shows it. */
  lemma CategoryEntry(l: Lang, t: Task, key: string)
    requires key == CategoryKey(t.id)
    requires key in EnTable() && EnTable()[key] == t.nameEn
    requires key in SwTable() && SwTable()[key] == t.nameSw
    requires key in EnSwTable() && EnSwTable()[key] == t.nameSw + " (" + t.nameEn + ")"
    ensures CompleteAllLabel(l, t) == "Complete All " + DisplayName(l, t.nameEn, t.nameSw)
  {
  }

  /** `saveTaskLog` for the signed-in user, one more in a run of saves that started from `table0`. */
  method SaveOneMore(store: ProgressStore, u: UserId, log: TaskLog, backend: Backend, ghost table0: map<UserId, Days>, ghost saves: seq<TaskLog>)
    requires store.Valid() && store.table == SavesApplied(table0, u, saves, backend)
    modifies store
    ensures store.Valid() && store.table == SavesApplied(table0, u, saves + [log], backend)
  {
    store.SaveTaskLog(Some(u), log, backend);
    if backend == Healthy {
      SavesAppliedStep(table0, u, saves, log);
    }
  }

  /**
   * The loop of `handleCompleteCategory`: for each subtask whose key is not in
   * `completed`, save its log for the user and add its key and its points.
   */
  method SaveMissingSubtasks(store: ProgressStore, u: UserId, task: Task, completed: set<string>, date: Day, now: int, backend: Backend)
    returns (pointsAdded: int, saves: seq<TaskLog>, newCompleted: set<string>)
    requires store.Valid()
    modifies store
    ensures store.Valid()
    ensures saves == MissingLogs(task.id, task.subtasks, completed, date, now) && pointsAdded == TotalPoints(saves)
    ensures newCompleted == completed + SubtaskKeys(task.id, task.subtasks)
    ensures store.table == SavesApplied(old(store.table), u, saves, backend)
  {
    pointsAdded, saves, newCompleted := 0, [], completed;
    ghost var table0 := store.table;
    ghost var keys, done := {}, task.subtasks[..0];
    var i := 0;
    while i < |task.subtasks|
      invariant 0 <= i <= |task.subtasks| && done == task.subtasks[..i]
      invariant store.Valid()
      invariant saves == MissingLogs(task.id, done, completed, date, now)
      invariant pointsAdded == TotalPoints(saves)
      invariant keys == SubtaskKeys(task.id, done)
      invariant newCompleted == completed + keys
      invariant store.table == SavesApplied(table0, u, saves, backend)
    {
      var sub := task.subtasks[i];
      var key := CompletionKey(task.id, sub.id);
      CompleteStep(task.id, task.subtasks, i, completed, date, now);
      AddKey(completed, keys, newCompleted, key);
      if key !in completed {
        var log := TaskLog(date, task.id, Some(sub.id), sub.points, now);
        SaveOneMore(store, u, log, backend, table0, saves);
        TotalPointsSnoc(saves, log);
        saves := saves + [log];
        newCompleted := newCompleted + {key};
        pointsAdded := pointsAdded + sub.points;
      }
      keys := keys + {key};
      done := task.subtasks[..i + 1];
      i := i + 1;
    }
    assert task.subtasks[..i] == task.subtasks;
  }

  // ---------------------------------------------------------------------------
  // The page

  /** The page's state: who is signed in, the store, the selected day, the ticked keys and the points shown. */
  class LogTasksPage {
    var user: Option<UserId>
    var store: ProgressStore
    var selectedDate: Day
    var completedTasks: set<string>
    var currentPoints: int

    ghost predicate Valid()
      reads this`store, store
    {
      store.Valid()
    }

    /** A fresh page on today's date, nothing ticked, no points. */
    constructor (user: Option<UserId>, store: ProgressStore, today: Day)
      requires store.Valid()
      ensures this.user == user && this.store == store && selectedDate == today
      ensures completedTasks == {} && currentPoints == 0 && Valid()
    {
      this.user := user;
      this.store := store;
      selectedDate := today;
      completedTasks := {};
      currentPoints := 0;
    }

    /**
     * `calculatePoints`: the points of the selected day's logs, which is the
     * total stored in the day's row; 0 without a user or a row.
     */
    function CalculatePoints(): (p: int)
      reads this`user, this`selectedDate, this`store, store
      ensures user.None? ==> p == 0
      ensures user.Some? && selectedDate !in store.RowsOf(user.value) ==> p == 0
      ensures user.Some? && store.Valid() && selectedDate in store.RowsOf(user.value) ==>
        p == store.RowsOf(user.value)[selectedDate].totalPoints
    {
      if user.None? then 0 else TotalPoints(store.GetTaskLogsForDate(user, selectedDate))
    }

    /**
     * `fetchData`: with a user, the shown points are recomputed and the
     * ticked set becomes the keys of every subtask the store reports done.
     */
    method FetchData(tasks: seq<Task>, backend: Backend)
      requires Valid()
      modifies this
      ensures Valid() && user == old(user) && store == old(store) && selectedDate == old(selectedDate)
      ensures old(user).None? ==> completedTasks == old(completedTasks) && currentPoints == old(currentPoints)
      ensures old(user).Some? ==>
        currentPoints == CalculatePoints() &&
        completedTasks == DoneKeys(store, Query(user, selectedDate, backend), tasks)
    {
      if user.None? {
        return;
      }
      currentPoints := CalculatePoints();
      var q := Query(user, selectedDate, backend);
      var completed: set<string> := {};
      var ti := 0;
      ghost var taken := tasks[..0];
      while ti < |tasks|
        invariant 0 <= ti <= |tasks| && taken == tasks[..ti]
        invariant completed == DoneKeys(store, q, taken)
        modifies {}
      {
        var task := tasks[ti];
        ghost var before := completed;
        var sj := 0;
        ghost var seen := task.subtasks[..0];
        while sj < |task.subtasks|
          invariant 0 <= sj <= |task.subtasks| && seen == task.subtasks[..sj]
          invariant completed == before + DoneSubKeys(store, q, task.id, seen)
          modifies {}
        {
          var sub := task.subtasks[sj];
          var done := store.IsTaskCompleted(user, selectedDate, task.id, Some(sub.id), backend);
          DoneSubStep(store, q, task.id, task.subtasks, sj, done, before, completed);
          if done {
            completed := completed + {CompletionKey(task.id, sub.id)};
          }
          seen := task.subtasks[..sj + 1];
          sj := sj + 1;
        }
        DoneStep(store, q, tasks, ti, before, completed);
        taken := tasks[..ti + 1];
        ti := ti + 1;
      }
      assert tasks[..ti] == tasks;
      completedTasks := completed;
    }

    /**
     * `handleToggleTask`: without a user or with no (or zero) points nothing
     * happens. Otherwise a ticked key is unticked and its logs removed, an
     * unticked key is ticked and a log saved; the set changes whether or not
     * the store accepted the change, and the points are recomputed.
     */
    method HandleToggleTask(taskId: string, subtaskId: Option<string>, points: Option<int>, now: int, backend: Backend)
      requires Valid()
      modifies this, store
      ensures Valid() && user == old(user) && store == old(store) && selectedDate == old(selectedDate)
      ensures old(user).None? || !TruthyNumber(points) ==>
        completedTasks == old(completedTasks) && currentPoints == old(currentPoints) && store.table == old(store.table)
      ensures old(user).Some? && TruthyNumber(points) ==>
        var u, key := user.value, ToggleKey(taskId, subtaskId);
        completedTasks == Toggled(old(completedTasks), key) &&
        currentPoints == CalculatePoints() &&
        store.table == (
          if key in old(completedTasks) then
            if backend != Healthy || selectedDate !in old(store.RowsOf(u)) then old(store.table)
            else old(store.table)[u := Removed(old(store.RowsOf(u)), selectedDate, taskId, subtaskId)]
          else
            if backend != Healthy then old(store.table)
            else old(store.table)[u := Saved(old(store.RowsOf(u)), TaskLog(selectedDate, taskId, subtaskId, points.value, now))])
    {
      if user.None? || !TruthyNumber(points) {
        return;
      }
      var key := ToggleKey(taskId, subtaskId);
      if key in completedTasks {
        store.RemoveTaskLog(user, selectedDate, taskId, subtaskId, backend);
        completedTasks := completedTasks - {key};
      } else {
        store.SaveTaskLog(user, TaskLog(selectedDate, taskId, subtaskId, points.value, now), backend);
        completedTasks := completedTasks + {key};
      }
      currentPoints := CalculatePoints();
    }

    /**
     * `handleCompleteCategory`: saves a log for every subtask of the task that
     * is not ticked, one after the other, and returns those logs and the
     * points they add. When anything was saved, every subtask key is ticked
     * and the points are recomputed; otherwise the page is left as it was.
     */
    method HandleCompleteCategory(task: Task, now: int, backend: Backend) returns (pointsAdded: int, saves: seq<TaskLog>)
      requires Valid()
      modifies this`completedTasks, this`currentPoints, store
      ensures Valid()
      ensures user == old(user) && store == old(store) && selectedDate == old(selectedDate)
      ensures old(user).None? ==>
        pointsAdded == 0 && saves == [] && completedTasks == old(completedTasks) &&
        currentPoints == old(currentPoints) && store.table == old(store.table)
      ensures old(user).Some? ==>
        saves == MissingLogs(task.id, task.subtasks, old(completedTasks), selectedDate, now) &&
        pointsAdded == TotalPoints(saves) &&
        store.table == SavesApplied(old(store.table), old(user).value, saves, backend)
      ensures old(user).Some? && saves == [] ==> completedTasks == old(completedTasks) && currentPoints == old(currentPoints)
      ensures old(user).Some? && saves != [] ==>
        completedTasks == old(completedTasks) + SubtaskKeys(task.id, task.subtasks) && currentPoints == CalculatePoints()
    {
      pointsAdded, saves := 0, [];
      if user.None? {
        return;
      }
      var u, s, newCompleted := user.value, store, {};
      assert this as object != s as object;
      pointsAdded, saves, newCompleted := SaveMissingSubtasks(s, u, task, completedTasks, selectedDate, now, backend);
      ghost var t1 := s.table;
      assert user == old(user) && store == s && s.Valid();
      if |saves| > 0 {
        ShowCompleted(newCompleted);
        assert s.table == t1 && Valid();
      }
    }

    /** `setCompletedTasks` with the new keys, then the points recomputed from the store. */
    method ShowCompleted(keys: set<string>)
      modifies this`completedTasks, this`currentPoints
      ensures completedTasks == keys && currentPoints == CalculatePoints()
    {
      completedTasks := keys;
      currentPoints := CalculatePoints();
    }
  }
}
