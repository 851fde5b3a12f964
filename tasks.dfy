/**
 * The task vocabulary: the catalogue of the four household tasks with their
 * subtasks and points, the log entry written when a task is ticked, and the
 * per-day progress row that collects those entries.
 */
module Tasks {
  import opened Wrappers
  import opened Dates

  datatype SubTask = SubTask(id: string, name: string, nameEn: string, nameSw: string, points: int)

  datatype Task = Task(
    id: string, name: string, nameEn: string, nameSw: string,
    points: int, icon: string, color: string, subtasks: seq<SubTask>)

  /**
   * One ticked task or subtask. The date is the `yyyy-MM-dd` string of the
   * page, read here as the day it names; `subtaskId` is absent for a whole task.
   */
  datatype TaskLog = TaskLog(date: Day, taskId: string, subtaskId: Option<string>, points: int, timestamp: int)

  /** One stored day: its logs in the order they were saved, and their point total. */
  datatype DailyProgress = DailyProgress(date: Day, totalPoints: int, logs: seq<TaskLog>)

  /** The sum of the logs' points (the `reduce` that every writer of a row recomputes). */
  function TotalPoints(logs: seq<TaskLog>): int
  {
    if logs == [] then 0 else TotalPoints(logs[..|logs| - 1]) + logs[|logs| - 1].points
  }

  /** The total of a concatenation is the sum of the totals. */
  lemma {:induction false} TotalPointsAppend(a: seq<TaskLog>, b: seq<TaskLog>)
    ensures TotalPoints(a + b) == TotalPoints(a) + TotalPoints(b)
    decreases |b|
  {
    if b != [] {
      assert (a + b)[..|a + b| - 1] == a + b[..|b| - 1];
      TotalPointsAppend(a, b[..|b| - 1]);
    } else {
      assert a + b == a;
    }
  }

  /** A row is consistent when its stored total is the sum of its logs' points. */
  predicate ConsistentRow(row: DailyProgress)
  {
    row.totalPoints == TotalPoints(row.logs)
  }

  /** The row written for a date and its logs, with the total recomputed. */
  function MakeRow(date: Day, logs: seq<TaskLog>): (row: DailyProgress)
    ensures ConsistentRow(row) && row.date == date && row.logs == logs
  {
    DailyProgress(date, TotalPoints(logs), logs)
  }

  /**
   * The completion key of a subtask, `taskId-subtaskId`, as the log page and
   * the task card build it; a whole task is keyed by its bare id.
   */
  function CompletionKey(taskId: string, subtaskId: string): string
  {
    taskId + "-" + subtaskId
  }

  /**
   * When task ids contain no '-', the completion key determines both of its
   * parts: no two (task, subtask) pairs share a key.
   */
  lemma CompletionKeyInjective(t1: string, s1: string, t2: string, s2: string)
    requires '-' !in t1 && '-' !in t2
    ensures CompletionKey(t1, s1) == CompletionKey(t2, s2) <==> t1 == t2 && s1 == s2
  {
    if |t1| < |t2| {
      ShorterTaskIdKeyDiffers(t1, s1, t2, s2);
    } else if |t2| < |t1| {
      ShorterTaskIdKeyDiffers(t2, s2, t1, s1);
    } else if CompletionKey(t1, s1) == CompletionKey(t2, s2) {
      var k := CompletionKey(t1, s1);
      assert t1 == k[..|t1|] == t2;
      assert s1 == k[|t1| + 1..] == s2;
    }
  }

  /** Keys of task ids of different lengths differ where the shorter one has its '-'. */
  lemma ShorterTaskIdKeyDiffers(t1: string, s1: string, t2: string, s2: string)
    requires |t1| < |t2| && '-' !in t2
    ensures CompletionKey(t1, s1) != CompletionKey(t2, s2)
  {
    assert CompletionKey(t1, s1)[|t1|] == '-' != t2[|t1|] == CompletionKey(t2, s2)[|t1|];
  }

  /** A subtask's completion key is never a bare id without '-', such as a task id. */
  lemma CompletionKeyNotBare(t: string, s: string, bare: string)
    requires '-' !in bare
    ensures CompletionKey(t, s) != bare
  {
    assert CompletionKey(t, s)[|t|] == '-';
  }

  /** The sum of the subtasks' points. */
  function SubtaskPoints(subtasks: seq<SubTask>): int
  {
    if subtasks == [] then 0 else subtasks[0].points + SubtaskPoints(subtasks[1..])
  }

  /** The sum of the tasks' points. */
  function CataloguePoints(tasks: seq<Task>): int
  {
    if tasks == [] then 0 else tasks[0].points + CataloguePoints(tasks[1..])
  }

  /**
   * What the catalogue is built to satisfy for one task: its points are the
   * sum of its subtasks' positive points, its subtask ids are distinct, and no
   * id contains '-'.
   */
  predicate WellFormedTask(t: Task)
  {
    && t.points == SubtaskPoints(t.subtasks)
    && t.points > 0
    && '-' !in t.id
    && t.nameEn != ""
    && (forall i :: 0 <= i < |t.subtasks| ==> t.subtasks[i].points > 0 && '-' !in t.subtasks[i].id)
    && (forall i, j :: 0 <= i < j < |t.subtasks| ==> t.subtasks[i].id != t.subtasks[j].id)
  }

  /** Every task is well formed and the task ids are pairwise distinct. */
  predicate WellFormedCatalogue(tasks: seq<Task>)
  {
    && (forall i :: 0 <= i < |tasks| ==> WellFormedTask(tasks[i]))
    && (forall i, j :: 0 <= i < j < |tasks| ==> tasks[i].id != tasks[j].id)
  }

  function Kuoga(): Task
  {
    Task("kuoga", "Kuoga", "Bathing", "Kuoga", 30, "Bath", "primary", [
      SubTask("prep", "Prep", "Undressing & bed prep", "Kuvua nguo na kutengeneza kitanda", 5),
      SubTask("bathing", "Bathing", "Bathing thoroughly", "Kuoga vizuri", 10),
      SubTask("cleaning", "Cleaning area", "Cleaning bathing area", "Kusafisha mahali pa kuogelea", 5),
      SubTask("grooming", "Grooming", "Lotion, hair, nails, deodorant", "Lotion, nywele, kucha, mafuta ya harufu", 5),
      SubTask("teeth", "Teeth", "Brushing teeth properly", "Kusafisha meno vizuri", 5)])
  }

  function Kufua(): Task
  {
    Task("kufua", "Kufua", "Laundry", "Kufua", 20, "Shirt", "secondary", [
      SubTask("underwear", "Underwear", "Underwear", "Nguo za ndani", 5),
      SubTask("socks", "Socks", "Socks", "Soksi", 4),
      SubTask("tops", "Tops", "T-shirts / Tops", "Mashati / Blauzi", 4),
      SubTask("bottoms", "Bottoms", "Trousers / Skirts", "Suruali / Sketi", 3),
      SubTask("outerwear", "Outerwear", "Jackets, sweaters", "Jaketi, sweta", 2),
      SubTask("linens", "Linens", "Bed linens / pillowcases", "Mashuka / Foronya", 2)])
  }

  function Kusafisha(): Task
  {
    Task("kusafisha", "Kusafisha", "Cleaning", "Kusafisha", 25, "Sparkles", "accent", [
      SubTask("sweeping", "Sweeping", "Sweeping floors", "Kufagia sakafu", 5),
      SubTask("mopping", "Mopping", "Mopping floors", "Kupangusa sakafu", 5),
      SubTask("countertops", "Countertops", "Cleaning countertops/sinks", "Kusafisha countertops/sinki", 5),
      SubTask("dusting", "Dusting", "Dusting furniture/shelves", "Kufuta vumbi vifaa/rafu", 3),
      SubTask("windows", "Windows", "Cleaning windows/mirrors", "Kusafisha madirisha/vioo", 2),
      SubTask("organizing", "Organizing", "Organizing clutter", "Kupanga vitu", 3),
      SubTask("trash", "Trash", "Taking out trash", "Kutoa takataka", 2)])
  }

  function Kupika(): Task
  {
    Task("kupika", "Kupika", "Cooking", "Kupika", 25, "ChefHat", "secondary", [
      SubTask("planning", "Planning", "Planning the meal", "Kupanga chakula", 3),
      SubTask("cooking", "Cooking", "Cooking main dish", "Kupika chakula kikuu", 7),
      SubTask("sink", "Sink/Counter", "Sink / Countertop cleaning", "Kusafisha sinki / countertop", 5),
      SubTask("plates", "Plates/Cups", "Washing plates/cups", "Kuosha sahani/vikombe", 3),
      SubTask("sufuria", "Sufuria", "Washing sufuria (cooking pot)", "Kuosha sufuria", 7)])
  }

  /** `TASKS`: the four tasks in display order. */
  function Catalogue(): seq<Task>
  {
    [Kuoga(), Kufua(), Kusafisha(), Kupika()]
  }

  /** Kuoga is worth 30 points, the sum of its subtasks' points. */
  lemma KuogaPoints()
    ensures Kuoga().points == SubtaskPoints(Kuoga().subtasks) == 30
  {
  }

  /** Kuoga's subtasks have positive points, and no id of Kuoga has a '-'. */
  lemma KuogaIds()
    ensures '-' !in Kuoga().id
    ensures var s := Kuoga().subtasks; forall i :: 0 <= i < |s| ==> s[i].points > 0 && '-' !in s[i].id
  {
  }

  /** Kuoga's subtask ids are pairwise distinct. */
  lemma KuogaSubtaskIdsDistinct()
    ensures var s := Kuoga().subtasks; forall i, j :: 0 <= i < j < |s| ==> s[i].id != s[j].id
  {
  }

  lemma KuogaWellFormed()
    ensures WellFormedTask(Kuoga())
  {
    KuogaPoints();
    KuogaIds();
    KuogaSubtaskIdsDistinct();
  }

  /** Kufua is worth 20 points, the sum of its subtasks' points. */
  lemma KufuaPoints()
    ensures Kufua().points == SubtaskPoints(Kufua().subtasks) == 20
  {
  }

  /** Kufua's subtasks have positive points, and no id of Kufua has a '-'. */
  lemma KufuaIds()
    ensures '-' !in Kufua().id
    ensures var s := Kufua().subtasks; forall i :: 0 <= i < |s| ==> s[i].points > 0 && '-' !in s[i].id
  {
  }

  /** Kufua's subtask ids are pairwise distinct. */
  lemma KufuaSubtaskIdsDistinct()
    ensures var s := Kufua().subtasks; forall i, j :: 0 <= i < j < |s| ==> s[i].id != s[j].id
  {
  }

  lemma KufuaWellFormed()
    ensures WellFormedTask(Kufua())
  {
    KufuaPoints();
    KufuaIds();
    KufuaSubtaskIdsDistinct();
  }

  /** Kusafisha is worth 25 points, the sum of its subtasks' points. */
  lemma KusafishaPoints()
    ensures Kusafisha().points == SubtaskPoints(Kusafisha().subtasks) == 25
  {
  }

  /** Kusafisha's subtasks have positive points, and no id of Kusafisha has a '-'. */
  lemma KusafishaIds()
    ensures '-' !in Kusafisha().id
    ensures var s := Kusafisha().subtasks; forall i :: 0 <= i < |s| ==> s[i].points > 0 && '-' !in s[i].id
  {
  }

  /** Kusafisha's subtask ids are pairwise distinct. */
  lemma KusafishaSubtaskIdsDistinct()
    ensures var s := Kusafisha().subtasks; forall i, j :: 0 <= i < j < |s| ==> s[i].id != s[j].id
  {
  }

  lemma KusafishaWellFormed()
    ensures WellFormedTask(Kusafisha())
  {
    KusafishaPoints();
    KusafishaIds();
    KusafishaSubtaskIdsDistinct();
  }

  /** Kupika is worth 25 points, the sum of its subtasks' points. */
  lemma KupikaPoints()
    ensures Kupika().points == SubtaskPoints(Kupika().subtasks) == 25
  {
  }

  /** Kupika's subtasks have positive points, and no id of Kupika has a '-'. */
  lemma KupikaIds()
    ensures '-' !in Kupika().id
    ensures var s := Kupika().subtasks; forall i :: 0 <= i < |s| ==> s[i].points > 0 && '-' !in s[i].id
  {
  }

  /** Kupika's subtask ids are pairwise distinct. */
  lemma KupikaSubtaskIdsDistinct()
    ensures var s := Kupika().subtasks; forall i, j :: 0 <= i < j < |s| ==> s[i].id != s[j].id
  {
  }

  lemma KupikaWellFormed()
    ensures WellFormedTask(Kupika())
  {
    KupikaPoints();
    KupikaIds();
    KupikaSubtaskIdsDistinct();
  }

  /**
   * The catalogue is well formed (points add up per task, ids are distinct
   * and free of '-', every point value is positive) and its four task point
   * values add up to 100.
   */
  lemma CatalogueWellFormed()
    ensures WellFormedCatalogue(Catalogue())
    ensures CataloguePoints(Catalogue()) == 100
  {
    CatalogueTasksWellFormed();
    CatalogueTaskIdsDistinct();
    CatalogueTotal();
  }

  lemma CatalogueTasksWellFormed()
    ensures forall i :: 0 <= i < |Catalogue()| ==> WellFormedTask(Catalogue()[i])
  {
    forall i | 0 <= i < |Catalogue()| ensures WellFormedTask(Catalogue()[i]) {
      TaskOfCatalogueWellFormed(Catalogue(), i);
    }
  }

  lemma TaskOfCatalogueWellFormed(c: seq<Task>, i: int)
    requires c == Catalogue() && 0 <= i < |c|
    ensures WellFormedTask(c[i])
  {
    if i == 0 {
      KuogaWellFormed();
    } else if i == 1 {
      KufuaWellFormed();
    } else if i == 2 {
      KusafishaWellFormed();
    } else {
      KupikaWellFormed();
    }
  }



  lemma CatalogueTaskIdsDistinct()
    ensures var c := Catalogue(); forall i, j :: 0 <= i < j < |c| ==> c[i].id != c[j].id
  {
  }

  lemma CatalogueTotal()
    ensures CataloguePoints(Catalogue()) == 100
  {
  }
}
