/** The index-based task list behind the terminal UI (pkg/task/task.go):
    tasks with a name, a detail and a per-task timer. Persistence (`Load`,
    `Save`) is outside the model. */
module TaskList {
  import opened Numeric
  import opened Text

  /** The per-task timer. The struct in pkg/task/task.go declares three
      fields; pkg/gomato/time.go also reads and writes `IsWorkSession`, so
      the model carries all four. */
  datatype TimeModel = TimeModel(duration: Int64, remaining: Int64, isRunning: bool, isWorkSession: bool)

  const ZeroTime: TimeModel := TimeModel(0, 0, false, false)

  datatype Task = Task(name: string, detail: string, timer: TimeModel)

  function Title(t: Task): string
  {
    t.name
  }

  function FilterValue(t: Task): string
  {
    t.name
  }

  function Description(t: Task): string
  {
    t.detail
  }

  /** `Manager.AddItem`: one more task at the end, with a zero timer. */
  function AddItem(tasks: seq<Task>, title: string, description: string): (r: seq<Task>)
    ensures |r| == |tasks| + 1
    ensures r[..|tasks|] == tasks
    ensures r[|tasks|] == Task(title, description, ZeroTime)
  {
    tasks + [Task(title, description, ZeroTime)]
  }

  /** A task just added lists under the title it was given, filters by
      that title, and describes itself with the given description. */
  lemma AddedTaskReadsBack(tasks: seq<Task>, title: string, description: string)
    ensures var added := AddItem(tasks, title, description)[|tasks|];
            Title(added) == title && FilterValue(added) == title && Description(added) == description
  {
  }

  /** `Manager.DeleteItem`: an index outside the list changes nothing; an
      index inside it removes exactly that task, keeping the others' order. */
  function DeleteItem(tasks: seq<Task>, index: int): (r: seq<Task>)
    ensures !(0 <= index < |tasks|) ==> r == tasks
    ensures 0 <= index < |tasks| ==>
              && |r| == |tasks| - 1
              && (forall i :: 0 <= i < index ==> r[i] == tasks[i])
              && (forall i :: index <= i < |r| ==> r[i] == tasks[i + 1])
  {
    if index < 0 || index >= |tasks| then tasks
    else tasks[..index] + tasks[index + 1..]
  }

  /** Adding a task and deleting it again restores the list. */
  lemma DeleteUndoesAdd(tasks: seq<Task>, title: string, description: string)
    ensures DeleteItem(AddItem(tasks, title, description), |tasks|) == tasks
  {
    var r := DeleteItem(AddItem(tasks, title, description), |tasks|);
    assert |r| == |tasks|;
    forall i | 0 <= i < |tasks|
      ensures r[i] == tasks[i]
    {
    }
  }

  function StatusText(t: TimeModel): string
  {
    if t.isRunning then "运行中" else "已暂停"
  }

  const TitleText: string := "番茄钟计时器"
  const Controls: string := "[空格]开始/暂停  [r]重置  [q]返回"

  lemma FixedTextsAreLines()
    ensures NoNewline(TitleText) && NoNewline(Controls) && NoNewline("")
  {
    assert NoNewline(TitleText);
    assert NoNewline(Controls);
  }

  function StatusLine(t: TimeModel): (s: string)
    ensures NoNewline(s)
    ensures s == (if t.isRunning then "状态: 运行中" else "状态: 已暂停")
  {
    "状态: " + StatusText(t)
  }

  /** `TimeModel.View` with the styles removed: title, the remaining time as
      minutes and seconds, the running status and the key help. */
  function View(t: TimeModel): string {
    JoinLines(ViewRows(t))
  }

  function ViewRows(t: TimeModel): seq<string> {
    [TitleText, "", TimeLine(t.remaining), StatusLine(t), "", Controls]
  }

  function TimeLine(remaining: int): (s: string)
    ensures NoNewline(s)
  {
    var c := ClockText(remaining);
    var s := "剩余时间: " + c;
    assert forall i :: |"剩余时间: "| <= i < |s| ==> s[i] == c[i - |"剩余时间: "|];
    s
  }

  lemma ViewRowsAreLines(t: TimeModel)
    ensures forall i :: 0 <= i < |ViewRows(t)| ==> NoNewline(ViewRows(t)[i])
  {
    FixedTextsAreLines();
  }

  /** The view is six lines; the third shows the remaining time and the
      fourth the status. */
  lemma ViewLines(t: TimeModel)
    ensures var lines := SplitLines(View(t));
            && |lines| == 6
            && lines[2] == "剩余时间: " + ClockText(t.remaining)
            && lines[3] == (if t.isRunning then "状态: 运行中" else "状态: 已暂停")
  {
    ViewRowsAreLines(t);
    SplitJoinLines(ViewRows(t));
  }
}
