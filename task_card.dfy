/**
 * The task card: the name it shows in the chosen language, whether the whole
 * task is ticked, how many subtasks are ticked, and the arguments its
 * checkboxes pass to the toggle handler.
 */
module TaskCard {
  import opened Wrappers
  import opened Tasks
  import opened Language

  /**
   * `getTaskName`: the Swahili name in Swahili, `nameSw (nameEn)` in English
   * with Swahili, the English name otherwise.
   */
  function DisplayName(l: Lang, nameEn: string, nameSw: string): (s: string)
    ensures l == En ==> s == nameEn
    ensures l == Sw ==> s == nameSw
    ensures l == EnSw ==> |s| == |nameSw| + |nameEn| + 3 && s[..|nameSw|] == nameSw && s[|nameSw| + 2..|s| - 1] == nameEn
    ensures l == EnSw ==> s[|nameSw|..|nameSw| + 2] == " (" && s[|s| - 1] == ')'
  {
    match l
    case Sw => nameSw
    case EnSw =>
      var s := nameSw + " (" + nameEn + ")";
      assert s[..|nameSw|] == nameSw;
      assert s[|nameSw|..|nameSw| + 2] == " (";
      assert s[|nameSw| + 2..|s| - 1] == nameEn;
      s
    case En => nameEn
  }

  /** The bilingual name can be split back into its two names. */
  lemma DisplayNameSplits(en1: string, sw1: string, en2: string, sw2: string)
    requires |sw1| == |sw2|
    ensures DisplayName(EnSw, en1, sw1) == DisplayName(EnSw, en2, sw2) <==> en1 == en2 && sw1 == sw2
  {
    var s1, s2 := DisplayName(EnSw, en1, sw1), DisplayName(EnSw, en2, sw2);
    if s1 == s2 {
      assert sw1 == s1[..|sw1|] == sw2;
      assert en1 == s1[|sw1| + 2..|s1| - 1] == en2;
    }
  }

  /** `isMainTaskCompleted`: the bare task id is in the ticked set. */
  predicate IsMainTaskCompleted(task: Task, completed: set<string>)
  {
    task.id in completed
  }

  /** Ticking any subtask, of this or another task, never ticks a whole task. */
  lemma SubtaskKeyLeavesMainTask(task: Task, otherTaskId: string, subtaskId: string, completed: set<string>)
    requires '-' !in task.id
    ensures IsMainTaskCompleted(task, completed + {CompletionKey(otherTaskId, subtaskId)}) == IsMainTaskCompleted(task, completed)
  {
    CompletionKeyNotBare(otherTaskId, subtaskId, task.id);
  }

  /** The positions of the subtasks whose completion key is in the ticked set. */
  function TickedIndices(taskId: string, subtasks: seq<SubTask>, completed: set<string>): set<int>
  {
    set i | 0 <= i < |subtasks| && CompletionKey(taskId, subtasks[i].id) in completed
  }

  /** 1 when the subtask's key is ticked, 0 otherwise. */
  function Tick(taskId: string, subtask: SubTask, completed: set<string>): nat
  {
    if CompletionKey(taskId, subtask.id) in completed then 1 else 0
  }

  /** The number of subtasks whose completion key is in the ticked set. */
  function CountCompleted(taskId: string, subtasks: seq<SubTask>, completed: set<string>): (n: nat)
    ensures n == |TickedIndices(taskId, subtasks, completed)|
    ensures n <= |subtasks|
  {
    if subtasks == [] then 0
    else
      TickedCons(taskId, subtasks, completed);
      Tick(taskId, subtasks[0], completed) + CountCompleted(taskId, subtasks[1..], completed)
  }

  /** `completedSubtasks`: how many of the task's subtasks are ticked, between none and all of them. */
  function CompletedSubtasks(task: Task, completed: set<string>): (n: nat)
    ensures n == |TickedIndices(task.id, task.subtasks, completed)|
    ensures 0 <= n <= |task.subtasks|
  {
    CountCompleted(task.id, task.subtasks, completed)
  }

  /** The ticked positions after adding a subtask at the end: the old ones, and its own when its key is ticked. */
  lemma TickedSnocSet(taskId: string, subtasks: seq<SubTask>, x: SubTask, completed: set<string>)
    ensures TickedIndices(taskId, subtasks + [x], completed) ==
      TickedIndices(taskId, subtasks, completed) + (if Tick(taskId, x, completed) == 1 then {|subtasks|} else {})
  {
    var all := subtasks + [x];
    forall i | 0 <= i < |subtasks| ensures all[i] == subtasks[i] { }
  }

  /** A subtask added at the end adds one to the count exactly when its key is ticked. */
  lemma TickedSnoc(taskId: string, subtasks: seq<SubTask>, x: SubTask, completed: set<string>)
    ensures |TickedIndices(taskId, subtasks + [x], completed)| == |TickedIndices(taskId, subtasks, completed)| + Tick(taskId, x, completed)
  {
    TickedSnocSet(taskId, subtasks, x, completed);
    var before := TickedIndices(taskId, subtasks, completed);
    assert |subtasks| !in before;
  }

  /** The ticked positions of a list are its first subtask's tick plus those of the rest. */
  lemma {:induction false} TickedCons(taskId: string, subtasks: seq<SubTask>, completed: set<string>)
    requires subtasks != []
    ensures |TickedIndices(taskId, subtasks, completed)| ==
      Tick(taskId, subtasks[0], completed) + |TickedIndices(taskId, subtasks[1..], completed)|
  {
    var k := |subtasks| - 1;
    if k == 0 {
      assert subtasks == [] + [subtasks[0]] && subtasks[1..] == [];
      TickedSnoc(taskId, [], subtasks[0], completed);
    } else {
      var init, last := subtasks[..k], subtasks[k];
      TickedCons(taskId, init, completed);
      assert subtasks == init + [last];
      TickedSnoc(taskId, init, last, completed);
      assert subtasks[1..] == init[1..] + [last];
      TickedSnoc(taskId, init[1..], last, completed);
    }
  }

  /** The count reaches the number of subtasks exactly when every subtask is ticked. */
  lemma {:induction false} CountCompletedAll(taskId: string, subtasks: seq<SubTask>, completed: set<string>)
    ensures CountCompleted(taskId, subtasks, completed) == |subtasks| <==>
      forall i :: 0 <= i < |subtasks| ==> CompletionKey(taskId, subtasks[i].id) in completed
  {
    if subtasks != [] {
      CountCompletedAll(taskId, subtasks[1..], completed);
      if forall i :: 0 <= i < |subtasks| ==> CompletionKey(taskId, subtasks[i].id) in completed {
        forall i | 0 <= i < |subtasks| - 1 ensures CompletionKey(taskId, subtasks[1..][i].id) in completed {
          assert subtasks[1..][i] == subtasks[i + 1];
        }
      } else if CompletionKey(taskId, subtasks[0].id) in completed {
        var i :| 0 <= i < |subtasks| && CompletionKey(taskId, subtasks[i].id) !in completed;
        assert subtasks[1..][i - 1] == subtasks[i];
      }
    }
  }

  /** The count is zero exactly when no subtask is ticked. */
  lemma {:induction false} CountCompletedNone(taskId: string, subtasks: seq<SubTask>, completed: set<string>)
    ensures CountCompleted(taskId, subtasks, completed) == 0 <==>
      forall i :: 0 <= i < |subtasks| ==> CompletionKey(taskId, subtasks[i].id) !in completed
  {
    if subtasks != [] {
      CountCompletedNone(taskId, subtasks[1..], completed);
      if forall i :: 0 <= i < |subtasks| ==> CompletionKey(taskId, subtasks[i].id) !in completed {
        forall i | 0 <= i < |subtasks| - 1 ensures CompletionKey(taskId, subtasks[1..][i].id) !in completed {
          assert subtasks[1..][i] == subtasks[i + 1];
        }
      } else if CompletionKey(taskId, subtasks[0].id) !in completed {
        var i :| 0 <= i < |subtasks| && CompletionKey(taskId, subtasks[i].id) in completed;
        assert subtasks[1..][i - 1] == subtasks[i];
      }
    }
  }

  /** The arguments a checkbox passes to `onToggleTask`: task id, subtask id if any, points. */
  datatype ToggleArgs = ToggleArgs(taskId: string, subtaskId: Option<string>, points: Option<int>)

  /** Simple mode: the whole task, with the task's points. */
  function SimpleToggle(task: Task): ToggleArgs
  {
    ToggleArgs(task.id, None, Some(task.points))
  }

  /** Detailed mode: one subtask, with the subtask's points. */
  function DetailedToggle(task: Task, subtask: SubTask): ToggleArgs
  {
    ToggleArgs(task.id, Some(subtask.id), Some(subtask.points))
  }
}
