/** The task-creation form of the alternative front end
    (cmd/gomato/task_input.go): two inputs and no button, so Enter on the
    last input creates the task. Typing into the inputs is outside the
    model. */
module CmdTaskInput {
  import opened Numeric

  const InputCount: int := 2

  datatype InputModel = InputModel(values: seq<string>, focus: seq<bool>, focused: int)

  datatype InputCmd = NoInputCmd | TaskCreated(title: string, description: string) | BackCmd

  /** Two inputs, the focus on one of them, and exactly that one focused. */
  predicate Valid(m: InputModel) {
    && |m.values| == InputCount && |m.focus| == InputCount
    && 0 <= m.focused < InputCount
    && forall i :: 0 <= i < InputCount ==> m.focus[i] == (i == m.focused)
  }

  function NewTaskInputModel(): (m: InputModel)
    ensures Valid(m) && m.focused == 0 && m.values == ["", ""]
  {
    InputModel(["", ""], [true, false], 0)
  }

  /** The loop over all inputs after the focus moves: focus the one at
      the new position, blur the rest. */
  function FocusOn(m: InputModel, focused: int): (r: InputModel)
    ensures r.values == m.values && r.focused == focused && |r.focus| == |m.focus|
    ensures forall i :: 0 <= i < |m.focus| ==> r.focus[i] == (i == focused)
  {
    m.(focus := seq(|m.focus|, i requires 0 <= i < |m.focus| => i == focused), focused := focused)
  }

  /** `nextInput`: `(focused + 1) % len(inputs)`. */
  function NextInput(m: InputModel): (r: InputModel)
    requires |m.values| == InputCount && |m.focus| == InputCount
    ensures 0 <= m.focused < InputCount ==> r.focused == (m.focused + 1) % InputCount
    ensures Valid(m) ==> Valid(r)
    ensures r.values == m.values
  {
    FocusOn(m, TruncRem(m.focused + 1, InputCount))
  }

  /** `prevInput`: one back, wrapping from the first to the last. */
  function PrevInput(m: InputModel): (r: InputModel)
    requires |m.values| == InputCount && |m.focus| == InputCount
    ensures m.focused == 0 ==> r.focused == InputCount - 1
    ensures 0 < m.focused < InputCount ==> r.focused == m.focused - 1
    ensures Valid(m) ==> Valid(r)
    ensures r.values == m.values
  {
    var f := m.focused - 1;
    FocusOn(m, if f < 0 then InputCount - 1 else f)
  }

  /** `taskInputModel.Update` for a key: Enter on the last input creates
      the task from both values, Enter elsewhere moves on; Esc and Ctrl-C
      go back; Tab/Ctrl-N and Shift-Tab/Ctrl-P move the focus. */
  function Update(m: InputModel, key: string): (r: (InputModel, InputCmd))
    requires |m.values| == InputCount && |m.focus| == InputCount
    ensures key == "enter" && m.focused == InputCount - 1 ==> r == (m, TaskCreated(m.values[0], m.values[1]))
    ensures key == "enter" && m.focused != InputCount - 1 ==> r == (NextInput(m), NoInputCmd)
    ensures key in {"esc", "ctrl+c"} ==> r == (m, BackCmd)
    ensures r.1.TaskCreated? ==> key == "enter" && m.focused == InputCount - 1
    ensures r.0.values == m.values && |r.0.focus| == InputCount
  {
    if key == "enter" then
      if m.focused == InputCount - 1 then (m, TaskCreated(m.values[0], m.values[1]))
      else (NextInput(m), NoInputCmd)
    else if key == "ctrl+c" || key == "esc" then (m, BackCmd)
    else if key == "shift+tab" || key == "ctrl+p" then (PrevInput(m), NoInputCmd)
    else if key == "tab" || key == "ctrl+n" then (NextInput(m), NoInputCmd)
    else (m, NoInputCmd)
  }

  // ---------------------------------------------------------------------
  // Properties
  // ---------------------------------------------------------------------

  lemma UpdateKeepsValid(m: InputModel, key: string)
    requires Valid(m)
    ensures Valid(Update(m, key).0)
  {
  }

  /** With two inputs, moving forward and moving back land on the same
      input, and two moves return to the start. */
  lemma TwoPositions(m: InputModel)
    requires Valid(m)
    ensures NextInput(m) == PrevInput(m)
    ensures NextInput(NextInput(m)) == m
    ensures NextInput(m).focused != m.focused
  {
    assert NextInput(NextInput(m)).focus == m.focus;
  }

  /** From a fresh form, the second Enter creates the task. */
  lemma SecondEnterCreates(title: string, description: string)
    ensures var m := NewTaskInputModel().(values := [title, description]);
            var (m1, c1) := Update(m, "enter");
            && c1 == NoInputCmd && m1.focus == [false, true]
            && Update(m1, "enter").1 == TaskCreated(title, description)
  {
    var m := NewTaskInputModel().(values := [title, description]);
    assert Update(m, "enter").0.focus == [false, true];
  }
}
