/** The task-creation form of the terminal program (pkg/gomato/input.go):
    a title input, a description input and a "Create" button, with focus
    cycling through all three. The text inputs are represented by their
    values and focus flags; typing into them is outside the model. */
module TaskInput {
  import opened Numeric
  import opened AppViews

  /** The number of text inputs; focus position `InputCount` is the
      button. */
  const InputCount: int := 2
  const SubmitSlot: int := InputCount

  datatype InputModel = InputModel(title: string, description: string,
                                   titleFocused: bool, descriptionFocused: bool, focused: int)

  /** What a key asks the program loop to deliver next. */
  datatype InputCmd = NoInputCmd | TaskCreated(title: string, description: string) | BackCmd

  /** Exactly the input at the focus position has focus; on the button,
      neither does. */
  predicate FocusAgrees(m: InputModel) {
    && m.titleFocused == (m.focused == 0)
    && m.descriptionFocused == (m.focused == 1)
  }

  predicate Valid(m: InputModel) {
    0 <= m.focused <= SubmitSlot && FocusAgrees(m)
  }

  /** `NewTaskInputModel`: both inputs empty, the title focused. */
  function NewTaskInputModel(): (m: InputModel)
    ensures Valid(m) && m.focused == 0 && m.title == "" && m.description == ""
  {
    InputModel("", "", true, false, 0)
  }

  /** The focus flags after moving to `focused`: the button blurs both
      inputs, any other position focuses that input alone. */
  function FocusOn(m: InputModel, focused: int): (r: InputModel)
    ensures r.title == m.title && r.description == m.description && r.focused == focused
    ensures 0 <= focused <= SubmitSlot ==> Valid(r)
  {
    if focused == SubmitSlot then m.(titleFocused := false, descriptionFocused := false, focused := focused)
    else m.(titleFocused := focused == 0, descriptionFocused := focused == 1, focused := focused)
  }

  /** `nextInput`: one step forward through the two inputs and the button,
      wrapping to the title. */
  function NextInput(m: InputModel): (r: InputModel)
    ensures 0 <= m.focused <= SubmitSlot ==> r.focused == (m.focused + 1) % (InputCount + 1)
    ensures 0 <= m.focused <= SubmitSlot ==> Valid(r)
    ensures r.title == m.title && r.description == m.description
  {
    FocusOn(m, TruncRem(m.focused + 1, InputCount + 1))
  }

  /** `prevInput`: one step back, wrapping from the title to the button. */
  function PrevInput(m: InputModel): (r: InputModel)
    ensures m.focused == 0 ==> r.focused == SubmitSlot
    ensures 0 < m.focused <= SubmitSlot ==> r.focused == m.focused - 1
    ensures 0 <= m.focused <= SubmitSlot ==> Valid(r)
    ensures r.title == m.title && r.description == m.description
  {
    var f := m.focused - 1;
    FocusOn(m, if f < 0 then SubmitSlot else f)
  }

  /** `TaskInputModel.Update` for a key: Enter on the button creates the
      task from the two values, Enter elsewhere moves on; Esc and Ctrl-C
      go back; Tab/Ctrl-N and Shift-Tab/Ctrl-P move the focus. */
  function Update(m: InputModel, key: string): (r: (InputModel, InputCmd))
    ensures key == "enter" && m.focused == SubmitSlot ==> r == (m, TaskCreated(m.title, m.description))
    ensures key == "enter" && m.focused != SubmitSlot ==> r == (NextInput(m), NoInputCmd)
    ensures key in {"esc", "ctrl+c"} ==> r == (m, BackCmd)
    ensures r.1.TaskCreated? ==> key == "enter" && m.focused == SubmitSlot
    ensures r.0.title == m.title && r.0.description == m.description
  {
    if key == "enter" then
      if m.focused == SubmitSlot then (m, TaskCreated(m.title, m.description))
      else (NextInput(m), NoInputCmd)
    else if key == "ctrl+c" || key == "esc" then (m, BackCmd)
    else if key == "shift+tab" || key == "ctrl+p" then (PrevInput(m), NoInputCmd)
    else if key == "tab" || key == "ctrl+n" then (NextInput(m), NoInputCmd)
    else (m, NoInputCmd)
  }

  /** `handleBack`: back to the task list with a fresh form. */
  function HandleBack(view: View, m: InputModel): (r: (View, InputModel))
    ensures r.0 == TaskListView
    ensures Valid(r.1) && r.1.focused == 0 && r.1.title == "" && r.1.description == ""
  {
    (TaskListView, NewTaskInputModel())
  }

  // ---------------------------------------------------------------------
  // Properties
  // ---------------------------------------------------------------------

  /** Every key keeps the focus on one of the three positions, with the
      flags agreeing. */
  lemma UpdateKeepsValid(m: InputModel, key: string)
    requires Valid(m)
    ensures Valid(Update(m, key).0)
  {
  }

  /** Back and forth are inverse moves. */
  lemma NextPrevAreInverse(m: InputModel)
    requires Valid(m)
    ensures PrevInput(NextInput(m)) == m
    ensures NextInput(PrevInput(m)) == m
  {
  }

  /** Three steps forward come back to the same place. */
  lemma FocusCycleHasThreePositions(m: InputModel)
    requires Valid(m)
    ensures NextInput(NextInput(NextInput(m))) == m
    ensures NextInput(m) != m && NextInput(NextInput(m)) != m
  {
  }

  /** From a fresh form, Enter, Enter, Enter creates a task from the
      values typed, and nothing is created before the button is reached. */
  lemma ThirdEnterCreates(title: string, description: string)
    ensures var m := NewTaskInputModel().(title := title, description := description);
            var (m1, c1) := Update(m, "enter");
            var (m2, c2) := Update(m1, "enter");
            && c1 == NoInputCmd && c2 == NoInputCmd
            && m2.focused == SubmitSlot && !m2.titleFocused && !m2.descriptionFocused
            && Update(m2, "enter").1 == TaskCreated(title, description)
  {
  }
}
