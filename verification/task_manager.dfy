/** The command-line task manager (task/task.go): tasks numbered 1..n in
    list order, with completion, statistics, queries and deletion that
    renumbers the tasks after the deleted one. Saving and loading the JSON
    file are outside the model; the clock is a parameter `now`, and the
    outcome of the save that `DeleteTask` reports is a parameter too. */
module TaskManager {
  import opened Wrappers
  import opened Numeric

  /** A task; `endTime` is `None` while it holds Go's zero `time.Time`. */
  datatype Task = Task(id: int, description: string, startTime: int, endTime: Option<int>, completed: bool)

  /** The numbering every operation of the manager maintains: the task at
      position `i` has id `i + 1`. */
  predicate WellNumbered(tasks: seq<Task>) {
    forall i :: 0 <= i < |tasks| ==> tasks[i].id == i + 1
  }

  function NotFound(id: int): string {
    "任务 " + Itoa(id) + " 不存在"
  }

  /** The position of the first task with this id, if any. */
  function FirstIndex(tasks: seq<Task>, id: int): (r: Option<nat>)
    ensures r.None? <==> forall i :: 0 <= i < |tasks| ==> tasks[i].id != id
    ensures r.Some? ==> r.value < |tasks| && tasks[r.value].id == id
    ensures r.Some? ==> forall j :: 0 <= j < r.value ==> tasks[j].id != id
    decreases |tasks|
  {
    if |tasks| == 0 then None
    else if tasks[0].id == id then Some(0)
    else
      match FirstIndex(tasks[1..], id)
      case None => None
      case Some(i) => Some(i + 1)
  }

  /** `AddTask`: appends an open task numbered one past the current length,
      started now, and returns it. */
  function AddTask(tasks: seq<Task>, description: string, now: int): (r: (seq<Task>, Task))
    ensures r.0 == tasks + [r.1]
    ensures r.1 == Task(|tasks| + 1, description, now, None, false)
  {
    var task := Task(|tasks| + 1, description, now, None, false);
    (tasks + [task], task)
  }

  /** `CompleteTask`: the first task with the id is marked completed with
      its end time; it is an error exactly when no task has the id. */
  function CompleteTask(tasks: seq<Task>, id: int, now: int): (r: (seq<Task>, Outcome<string>))
    ensures r.1.Fail? <==> FirstIndex(tasks, id).None?
    ensures r.1.Fail? ==> r.0 == tasks && r.1.error == NotFound(id)
    ensures r.1.Pass? ==>
              var i := FirstIndex(tasks, id).value;
              && |r.0| == |tasks|
              && r.0[i] == tasks[i].(completed := true, endTime := Some(now))
              && forall j :: 0 <= j < |tasks| && j != i ==> r.0[j] == tasks[j]
  {
    match FirstIndex(tasks, id)
    case None => (tasks, Fail(NotFound(id)))
    case Some(i) => (tasks[i := tasks[i].(completed := true, endTime := Some(now))], Pass)
  }

  /** The number of completed tasks, counted from the back. */
  function CountCompleted(tasks: seq<Task>): (n: nat)
    ensures n <= |tasks|
    decreases |tasks|
  {
    if |tasks| == 0 then 0
    else CountCompleted(tasks[..|tasks| - 1]) + (if tasks[|tasks| - 1].completed then 1 else 0)
  }

  /** `GetTaskStats`: the number of tasks and the number completed. */
  method GetTaskStats(tasks: seq<Task>) returns (total: int, completed: int)
    ensures total == |tasks|
    ensures completed == CountCompleted(tasks)
    ensures 0 <= completed <= total
  {
    total := |tasks|;
    completed := 0;
    var i := 0;
    while i < |tasks|
      invariant 0 <= i <= |tasks|
      invariant completed == CountCompleted(tasks[..i])
    {
      assert tasks[..i + 1][..i] == tasks[..i];
      if tasks[i].completed {
        completed := completed + 1;
      }
      i := i + 1;
    }
    assert tasks[..|tasks|] == tasks;
  }

  /** How many tasks `GetRecentTasks(n)` returns: `n`, or all of them when
      `n` is not positive or exceeds the count. */
  function RecentCount(count: nat, n: int): (k: nat)
    ensures k <= count
    ensures 0 < n <= count ==> k == n
    ensures (n <= 0 || n > count) ==> k == count
  {
    if n <= 0 || n > count then count else n
  }

  /** `GetRecentTasks`: the newest tasks, oldest first. */
  function GetRecentTasks(tasks: seq<Task>, n: int): (r: seq<Task>)
    ensures |r| == RecentCount(|tasks|, n)
    ensures tasks == tasks[..|tasks| - |r|] + r
  {
    tasks[|tasks| - RecentCount(|tasks|, n)..]
  }

  /** `GetIncompleteTasks`: the open tasks, in list order. */
  function GetIncompleteTasks(tasks: seq<Task>): (r: seq<Task>)
    ensures forall t :: t in r <==> t in tasks && !t.completed
    ensures |r| + CountCompleted(tasks) == |tasks|
    decreases |tasks|
  {
    if |tasks| == 0 then []
    else
      var last := tasks[|tasks| - 1];
      var front := tasks[..|tasks| - 1];
      assert tasks == front + [last];
      GetIncompleteTasks(front) + (if last.completed then [] else [last])
  }

  /** `GetTaskByID`: the first task with the id, or an error. */
  function GetTaskByID(tasks: seq<Task>, id: int): (r: Result<Task, string>)
    ensures r.Failure? <==> FirstIndex(tasks, id).None?
    ensures r.Failure? ==> r.error == NotFound(id)
    ensures r.Success? ==> r.value == tasks[FirstIndex(tasks, id).value]
  {
    match FirstIndex(tasks, id)
    case None => Failure(NotFound(id))
    case Some(i) => Success(tasks[i])
  }

  /** The tail renumbering of `DeleteTask`: from position `from` on, every
      task gets its 1-based position as id. */
  function Renumber(tasks: seq<Task>, from: nat): (r: seq<Task>)
    ensures |r| == |tasks|
    ensures forall j :: 0 <= j < |tasks| ==> r[j] == if j < from then tasks[j] else tasks[j].(id := j + 1)
  {
    seq(|tasks|, j requires 0 <= j < |tasks| => if j < from then tasks[j] else tasks[j].(id := j + 1))
  }

  /** `DeleteTask`: removes the first task with the id and renumbers the
      ones after it; an unknown id is an error and changes nothing. The
      save's failure is reported, but the deletion stands. */
  function DeleteTask(tasks: seq<Task>, id: int, saved: Outcome<string>): (r: (seq<Task>, Outcome<string>))
    ensures FirstIndex(tasks, id).None? ==> r == (tasks, Fail(NotFound(id)))
    ensures FirstIndex(tasks, id).Some? ==>
              var i := FirstIndex(tasks, id).value;
              && |r.0| == |tasks| - 1
              && (forall j :: 0 <= j < i ==> r.0[j] == tasks[j])
              && (forall j :: i <= j < |r.0| ==> r.0[j] == tasks[j + 1].(id := j + 1))
              && (saved.Pass? ==> r.1 == Pass)
              && (saved.Fail? ==> r.1 == Fail("保存任务失败：" + saved.error))
  {
    match FirstIndex(tasks, id)
    case None => (tasks, Fail(NotFound(id)))
    case Some(i) =>
      var kept := tasks[..i] + tasks[i + 1..];
      assert forall j :: 0 <= j < i ==> kept[j] == tasks[j];
      assert forall j :: i <= j < |kept| ==> kept[j] == tasks[j + 1];
      var rest := Renumber(kept, i);
      (rest, if saved.Pass? then Pass else Fail("保存任务失败：" + saved.error))
  }

  /** `DeleteAllTasks`: the list becomes empty (the file removal is
      outside the model). */
  function DeleteAllTasks(tasks: seq<Task>): (r: seq<Task>)
    ensures |r| == 0
  {
    []
  }

  // ---------------------------------------------------------------------
  // Properties
  // ---------------------------------------------------------------------

  /** Adding, deleting and clearing keep the tasks numbered 1..n. */
  lemma OperationsKeepNumbering(tasks: seq<Task>, description: string, id: int, now: int,
                                saved: Outcome<string>)
    requires WellNumbered(tasks)
    ensures WellNumbered(AddTask(tasks, description, now).0)
    ensures WellNumbered(DeleteTask(tasks, id, saved).0)
    ensures WellNumbered(CompleteTask(tasks, id, now).0)
    ensures WellNumbered(DeleteAllTasks(tasks))
  {
  }

  /** In a well-numbered list, the task with id `k` is the one at position
      `k - 1`, and every other id is unknown. */
  lemma LookupByPosition(tasks: seq<Task>, id: int)
    requires WellNumbered(tasks)
    ensures FirstIndex(tasks, id).Some? <==> 1 <= id <= |tasks|
    ensures 1 <= id <= |tasks| ==> GetTaskByID(tasks, id) == Success(tasks[id - 1])
  {
    if 1 <= id <= |tasks| {
      assert tasks[id - 1].id == id;
    }
  }

  /** A new task can be looked up under the id it was given. */
  lemma AddedTaskIsFound(tasks: seq<Task>, description: string, now: int)
    requires WellNumbered(tasks)
    ensures var (after, task) := AddTask(tasks, description, now);
            GetTaskByID(after, task.id) == Success(task)
  {
    var (after, task) := AddTask(tasks, description, now);
    LookupByPosition(after, task.id);
  }

  /** Deleting the task just added restores the list. */
  lemma DeleteUndoesAdd(tasks: seq<Task>, description: string, now: int, saved: Outcome<string>)
    requires WellNumbered(tasks)
    ensures var (after, task) := AddTask(tasks, description, now);
            DeleteTask(after, task.id, saved).0 == tasks
  {
    var (after, task) := AddTask(tasks, description, now);
    LookupByPosition(after, task.id);
    assert FirstIndex(after, task.id) == Some(|tasks|);
  }

  /** Completing an open task adds one to the completed count; completing
      a finished one or an unknown id leaves it. */
  lemma CompletingCounts(tasks: seq<Task>, id: int, now: int)
    ensures var r := CompleteTask(tasks, id, now).0;
            CountCompleted(r) == CountCompleted(tasks)
                                 + (if FirstIndex(tasks, id).Some? && !tasks[FirstIndex(tasks, id).value].completed
                                    then 1 else 0)
  {
    match FirstIndex(tasks, id)
    case None =>
    case Some(i) =>
      CountAfterUpdate(tasks, i, tasks[i].(completed := true, endTime := Some(now)));
  }

  /** Replacing one task changes the completed count by the difference of
      the two tasks' flags. */
  lemma {:induction false} CountAfterUpdate(tasks: seq<Task>, i: nat, t: Task)
    requires i < |tasks|
    ensures CountCompleted(tasks[i := t]) + (if tasks[i].completed then 1 else 0)
            == CountCompleted(tasks) + (if t.completed then 1 else 0)
    decreases |tasks|
  {
    var n := |tasks| - 1;
    if i < n {
      assert tasks[i := t][..n] == tasks[..n][i := t];
      CountAfterUpdate(tasks[..n], i, t);
    } else {
      assert tasks[i := t][..n] == tasks[..n];
    }
  }

  /** The open tasks of two lists one after the other are the open tasks
      of the first followed by those of the second: the filter keeps the
      list order. */
  lemma {:induction false} IncompleteOfConcat(a: seq<Task>, b: seq<Task>)
    ensures GetIncompleteTasks(a + b) == GetIncompleteTasks(a) + GetIncompleteTasks(b)
    decreases |b|
  {
    if |b| > 0 {
      var b' := b[..|b| - 1];
      assert (a + b)[..|a + b| - 1] == a + b';
      IncompleteOfConcat(a, b');
    } else {
      assert a + b == a;
    }
  }
}
