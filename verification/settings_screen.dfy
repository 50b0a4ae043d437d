/** The user settings (pkg/common/config.go) and the settings screen's state
    machine (pkg/gomato/setting.go): index initialisation, key handling for
    focus, tabs and the two selectors, and the Enter-time parse with
    fallback and normalisation. Rendering, loading and saving are outside
    the model; the four text inputs are represented by their values. */
module SettingsScreen {
  import opened Wrappers
  import opened Numeric

  /** `common.Settings`: durations in minutes and the cycle length are Go
      `uint`s. */
  datatype Settings = Settings(pomodoro: Uint64, shortBreak: Uint64, longBreak: Uint64, cycle: Uint64,
                               timeDisplayMode: string, language: string)

  const DefaultSettings: Settings := Settings(25, 5, 15, 4, "ansi", "zh")

  const Tabs: seq<string> := ["General", "Timer", "Appearance", "Notifications"]
  const TimeDisplayOptions: seq<string> := ["ANSI艺术显示", "普通数字显示"]
  const LanguageOptions: seq<string> := ["中文", "English"]

  /** Each numeric input holds at most three characters. */
  const CharLimit: nat := 3
  const InputCount: nat := 4
  /** Focus positions after the four inputs: the two selectors, then the
      submit button. */
  const TimeDisplayFocus: int := 4
  const LanguageFocus: int := 5
  const MaxFocusIndex: int := InputCount + 2

  /** `cursor.Mode`: blink, static, hidden. */
  const CursorBlink: int := 0
  const CursorHide: int := 2

  datatype Inputs = Inputs(pomodoro: string, shortBreak: string, longBreak: string, cycle: string)

  /** `focusedInput` is the text input holding keyboard focus, if any. */
  datatype SettingModel = SettingModel(
    activeTab: int,
    focusIndex: int,
    focusedInput: Option<int>,
    inputs: Inputs,
    cursorMode: int,
    settings: Settings,
    timeDisplayIndex: int,
    languageIndex: int)

  /** What `Update` hands back to the program loop. `WidgetCmd` stands for
      the text widgets' own commands (focus, cursor blink, typing). */
  datatype SettingCmd = NoCmd | QuitCmd | BackCmd | WidgetCmd

  /** The states the screen can reach from its constructor. */
  predicate Valid(m: SettingModel) {
    && 0 <= m.activeTab < |Tabs|
    && 0 <= m.focusIndex <= MaxFocusIndex
    && (m.focusedInput.Some? ==> m.focusedInput.value == m.focusIndex < InputCount)
    && 0 <= m.cursorMode <= CursorHide
    && 0 <= m.timeDisplayIndex < |TimeDisplayOptions|
    && 0 <= m.languageIndex < |LanguageOptions|
  }

  function Min(a: int, b: int): (r: int)
    ensures r <= a && r <= b
    ensures r == a || r == b
  {
    if a < b then a else b
  }

  function Max(a: int, b: int): (r: int)
    ensures r >= a && r >= b
    ensures r == a || r == b
  {
    if a > b then a else b
  }

  /** `textinput.SetValue` under the character limit: longer text is cut
      to its first three characters. */
  function SetValue(s: string): (r: string)
    ensures |r| <= CharLimit
    ensures |s| <= CharLimit ==> r == s
    ensures |s| > CharLimit ==> r == s[..CharLimit]
  {
    if |s| > CharLimit then s[..CharLimit] else s
  }

  /** The stored value a two-option selector shows: index 1 for the second
      option, index 0 for anything else, the first option included. */
  function SelectorIndex(value: string, second: string): (i: int)
    ensures i == 1 <==> value == second
    ensures i == 0 <==> value != second
  {
    if value == second then 1 else 0
  }

  /** The value a two-option selector stores on Enter: the second option at
      index 1, the first at any other index. */
  function SelectorName(index: int, first: string, second: string): (value: string)
    requires first != second
    ensures value == second <==> index == 1
    ensures value in {first, second}
  {
    if index == 1 then second else first
  }

  /** Showing a stored value and storing it again keeps it exactly when it is
      one of the two options; storing an index and showing it again gives the
      index back exactly when it is 0 or 1. */
  lemma SelectorRoundTrip(value: string, index: int, first: string, second: string)
    requires first != second
    ensures SelectorName(SelectorIndex(value, second), first, second) == value <==> value in {first, second}
    ensures SelectorIndex(SelectorName(index, first, second), second) == index <==> index in {0, 1}
  {
  }

  /** `NewSettingModelWithSettings`: selector indices from the settings, the
      inputs filled with the numbers, nothing focused yet. */
  function NewSettingModel(s: Settings): (m: SettingModel)
    ensures Valid(m)
    ensures m.settings == s && m.focusIndex == 0 && m.activeTab == 0
    ensures m.timeDisplayIndex == SelectorIndex(s.timeDisplayMode, "normal")
    ensures m.languageIndex == SelectorIndex(s.language, "en")
  {
    SettingModel(0, 0, None,
                 Inputs(SetValue(Itoa(s.pomodoro)), SetValue(Itoa(s.shortBreak)),
                        SetValue(Itoa(s.longBreak)), SetValue(Itoa(s.cycle))),
                 CursorBlink, s, SelectorIndex(s.timeDisplayMode, "normal"), SelectorIndex(s.language, "en"))
  }

  /** `uint(x)` of a Go `int`, followed by `int(...)` again: a `uint` that
      goes through `int` and back is unchanged. */
  lemma UintIntRoundTrip(u: Uint64)
    ensures ToUint(WrapInt64(u)) == u
  {
    var w := WrapInt64(u);
    var v := ToUint(w);
    assert (v - u) % TwoTo64 == 0 by {
      assert (v - w) % TwoTo64 == 0;
      assert (w - u) % TwoTo64 == 0;
      assert v - u == (v - w) + (w - u);
    }
  }

  /** One numeric field on Enter: the parsed text converted with `uint(...)`,
      or the existing value when the text does not parse. */
  function ParseOr(text: string, current: Uint64): (v: Uint64)
    ensures Atoi(text).None? ==> v == current
    ensures Atoi(text).Some? ==> v == ToUint(Atoi(text).value)
    ensures Atoi(text).Some? && Atoi(text).value >= 0 ==> v == Atoi(text).value
  {
    match Atoi(text)
    case Some(p) => ToUint(p)
    case None =>
      UintIntRoundTrip(current);
      ToUint(WrapInt64(current))
  }

  /** The Enter key's effect on the settings (saving them is outside the
      model). */
  function Submit(m: SettingModel): (r: SettingModel)
    ensures r == m.(settings := r.settings)
    ensures r.settings.pomodoro == ParseOr(m.inputs.pomodoro, m.settings.pomodoro)
    ensures r.settings.shortBreak == ParseOr(m.inputs.shortBreak, m.settings.shortBreak)
    ensures r.settings.longBreak == ParseOr(m.inputs.longBreak, m.settings.longBreak)
    ensures r.settings.cycle == ParseOr(m.inputs.cycle, m.settings.cycle)
    ensures r.settings.timeDisplayMode == SelectorName(m.timeDisplayIndex, "ansi", "normal")
    ensures r.settings.language == SelectorName(m.languageIndex, "zh", "en")
  {
    m.(settings := Settings(
      ParseOr(m.inputs.pomodoro, m.settings.pomodoro),
      ParseOr(m.inputs.shortBreak, m.settings.shortBreak),
      ParseOr(m.inputs.longBreak, m.settings.longBreak),
      ParseOr(m.inputs.cycle, m.settings.cycle),
      SelectorName(m.timeDisplayIndex, "ansi", "normal"),
      SelectorName(m.languageIndex, "zh", "en")))
  }

  /** The focus step of tab/down (`forward`) and up/shift+tab: from inside
      the range it moves one place round a cycle of seven positions; from
      outside it lands on an end of the range. */
  function StepFocus(focusIndex: int, forward: bool): (f: int)
    ensures 0 <= f <= MaxFocusIndex
    ensures 0 <= focusIndex <= MaxFocusIndex ==>
              f == (focusIndex + (if forward then 1 else -1)) % (MaxFocusIndex + 1)
  {
    var f := if forward then focusIndex + 1 else focusIndex - 1;
    if f > MaxFocusIndex then 0
    else if f < 0 then MaxFocusIndex
    else f
  }

  /** Moving focus: the input at the new position takes the keyboard focus,
      every other input is blurred. */
  function MoveFocus(m: SettingModel, forward: bool): (r: SettingModel)
    ensures r.focusIndex == StepFocus(m.focusIndex, forward)
    ensures r.focusedInput == (if r.focusIndex < InputCount then Some(r.focusIndex) else None)
    ensures r == m.(focusIndex := r.focusIndex, focusedInput := r.focusedInput)
  {
    var f := StepFocus(m.focusIndex, forward);
    m.(focusIndex := f, focusedInput := if f < InputCount then Some(f) else None)
  }

  /** right/l: the focused selector, or else the tab, moves one step right
      and stops at the last entry. */
  function Right(m: SettingModel): (r: SettingModel)
    ensures m.focusIndex == TimeDisplayFocus ==>
              r == m.(timeDisplayIndex := Min(|TimeDisplayOptions| - 1, m.timeDisplayIndex + 1))
    ensures m.focusIndex == LanguageFocus ==>
              r == m.(languageIndex := Min(|LanguageOptions| - 1, m.languageIndex + 1))
    ensures m.focusIndex != TimeDisplayFocus && m.focusIndex != LanguageFocus ==>
              r == m.(activeTab := Min(m.activeTab + 1, |Tabs| - 1))
  {
    if m.focusIndex == TimeDisplayFocus then
      m.(timeDisplayIndex := Min(|TimeDisplayOptions| - 1, m.timeDisplayIndex + 1))
    else if m.focusIndex == LanguageFocus then
      m.(languageIndex := Min(|LanguageOptions| - 1, m.languageIndex + 1))
    else
      m.(activeTab := Min(m.activeTab + 1, |Tabs| - 1))
  }

  /** left/h: the mirror image of `Right`, stopping at the first entry. */
  function Left(m: SettingModel): (r: SettingModel)
    ensures m.focusIndex == TimeDisplayFocus ==> r == m.(timeDisplayIndex := Max(0, m.timeDisplayIndex - 1))
    ensures m.focusIndex == LanguageFocus ==> r == m.(languageIndex := Max(0, m.languageIndex - 1))
    ensures m.focusIndex != TimeDisplayFocus && m.focusIndex != LanguageFocus ==>
              r == m.(activeTab := Max(m.activeTab - 1, 0))
  {
    if m.focusIndex == TimeDisplayFocus then
      m.(timeDisplayIndex := Max(0, m.timeDisplayIndex - 1))
    else if m.focusIndex == LanguageFocus then
      m.(languageIndex := Max(0, m.languageIndex - 1))
    else
      m.(activeTab := Max(m.activeTab - 1, 0))
  }

  /** "1"/"2": pick the first/second option of the focused selector; with no
      selector focused nothing changes. */
  function Choose(m: SettingModel, second: bool): (r: SettingModel)
    ensures m.focusIndex == TimeDisplayFocus ==> r == m.(timeDisplayIndex := if second then 1 else 0)
    ensures m.focusIndex == LanguageFocus ==> r == m.(languageIndex := if second then 1 else 0)
    ensures m.focusIndex != TimeDisplayFocus && m.focusIndex != LanguageFocus ==> r == m
  {
    var i := if second then 1 else 0;
    if m.focusIndex == TimeDisplayFocus then m.(timeDisplayIndex := i)
    else if m.focusIndex == LanguageFocus then m.(languageIndex := i)
    else m
  }

  function NextCursorMode(mode: int): (r: int)
    ensures r <= CursorHide
    ensures mode < CursorHide ==> r == mode + 1
    ensures mode >= CursorHide ==> r == CursorBlink
  {
    if mode + 1 > CursorHide then CursorBlink else mode + 1
  }

  /** `SettingModel.Update` on a key press, keyed by its textual name. Keys
      not listed go to the text widgets, whose editing is not modelled. */
  function Update(m: SettingModel, key: string): (r: (SettingModel, SettingCmd))
    ensures key == "ctrl+c" ==> r == (m, QuitCmd)
    ensures key in {"q", "esc"} ==> r == (m, BackCmd)
    ensures key == "enter" ==> r == (Submit(m), BackCmd)
    ensures key in {"tab", "down"} ==> r.0 == MoveFocus(m, true)
    ensures key in {"up", "shift+tab"} ==> r.0 == MoveFocus(m, false)
    ensures key in {"right", "l"} ==> r == (Right(m), NoCmd)
    ensures key in {"left", "h"} ==> r == (Left(m), NoCmd)
    ensures key in {"1", "2"} ==> r == (Choose(m, key == "2"), NoCmd)
    ensures key == "ctrl+r" ==> r == (m.(cursorMode := NextCursorMode(m.cursorMode)), WidgetCmd)
    ensures key !in {"ctrl+c", "q", "esc", "enter"} ==> r.0.settings == m.settings
  {
    if key == "ctrl+c" then (m, QuitCmd)
    else if key == "q" || key == "esc" then (m, BackCmd)
    else if key == "enter" then (Submit(m), BackCmd)
    else if key == "ctrl+r" then (m.(cursorMode := NextCursorMode(m.cursorMode)), WidgetCmd)
    else if key == "tab" || key == "shift+tab" || key == "up" || key == "down" then
      (MoveFocus(m, !(key == "up" || key == "shift+tab")), WidgetCmd)
    else if key == "right" || key == "l" then (Right(m), NoCmd)
    else if key == "left" || key == "h" then (Left(m), NoCmd)
    else if key == "1" || key == "2" then (Choose(m, key == "2"), NoCmd)
    else (m, WidgetCmd)
  }

  // ---------------------------------------------------------------------
  // Properties
  // ---------------------------------------------------------------------

  /** Every key keeps the screen in its reachable range. */
  lemma UpdateKeepsValid(m: SettingModel, key: string)
    requires Valid(m)
    ensures Valid(Update(m, key).0)
  {
  }

  /** Moving focus forward and then back returns to where it started. */
  lemma FocusStepsAreInverse(f: int)
    requires 0 <= f <= MaxFocusIndex
    ensures StepFocus(StepFocus(f, true), false) == f
    ensures StepFocus(StepFocus(f, false), true) == f
  {
  }

  /** Seven steps in one direction visit every position and come back. */
  lemma FocusCycleHasSevenPositions(f: int)
    requires 0 <= f <= MaxFocusIndex
    ensures var g := StepFocus(StepFocus(StepFocus(StepFocus(StepFocus(StepFocus(StepFocus(f, true), true), true), true), true), true), true);
            g == f
  {
  }

  /** A number of at most three digits fits the input unchanged. */
  lemma {:induction false} ShortNumberFits(n: nat)
    requires n < 1000
    ensures SetValue(Itoa(n)) == Itoa(n)
  {
    if n >= 10 {
      assert NatText(n) == NatText(n / 10) + [DigitChar(n % 10)];
      if n / 10 >= 10 {
        assert NatText(n / 10) == NatText(n / 100) + [DigitChar((n / 10) % 10)];
      }
    }
  }

  /** Opening the screen and pressing Enter straight away keeps every
      number of up to three digits and normalises the two modes: the
      display mode becomes "normal" or "ansi", the language "en" or "zh". */
  lemma ConstructThenSubmit(s: Settings)
    requires s.pomodoro < 1000 && s.shortBreak < 1000 && s.longBreak < 1000 && s.cycle < 1000
    ensures var r := Submit(NewSettingModel(s)).settings;
            && r.pomodoro == s.pomodoro && r.shortBreak == s.shortBreak
            && r.longBreak == s.longBreak && r.cycle == s.cycle
            && r.timeDisplayMode == (if s.timeDisplayMode == "normal" then "normal" else "ansi")
            && r.language == (if s.language == "en" then "en" else "zh")
  {
    ShortNumberFits(s.pomodoro);
    ShortNumberFits(s.shortBreak);
    ShortNumberFits(s.longBreak);
    ShortNumberFits(s.cycle);
    AtoiItoa(s.pomodoro);
    AtoiItoa(s.shortBreak);
    AtoiItoa(s.longBreak);
    AtoiItoa(s.cycle);
  }

  /** A four-digit number is cut to its first three digits when shown, so
      submitting right away stores a different number: 1500 comes back as
      150. */
  lemma LongNumberIsCut()
    ensures Submit(NewSettingModel(DefaultSettings.(pomodoro := 1500))).settings.pomodoro == 150
  {
    var text := Itoa(1500);
    assert NatText(1500) == NatText(150) + [DigitChar(0)];
    assert NatText(150) == NatText(15) + [DigitChar(0)];
    assert NatText(15) == NatText(1) + [DigitChar(5)];
    assert SetValue(text) == NatText(150);
    AtoiItoa(150);
  }

  /** Normalised settings are a fixed point of opening and submitting. */
  lemma SubmitIsIdempotent(s: Settings)
    requires s.pomodoro < 1000 && s.shortBreak < 1000 && s.longBreak < 1000 && s.cycle < 1000
    ensures var once := Submit(NewSettingModel(s)).settings;
            Submit(NewSettingModel(once)).settings == once
  {
    ConstructThenSubmit(s);
    var once := Submit(NewSettingModel(s)).settings;
    ConstructThenSubmit(once);
  }

  /** Three ctrl+r presses bring the cursor mode back. */
  lemma CursorModeCycles(mode: int)
    requires 0 <= mode <= CursorHide
    ensures NextCursorMode(NextCursorMode(NextCursorMode(mode))) == mode
    ensures NextCursorMode(mode) != mode
  {
  }

  /** Left undoes right wherever right moved something, and right stops at
      the last entry. */
  lemma LeftUndoesRight(m: SettingModel)
    requires Valid(m)
    ensures Right(m) != m ==> Left(Right(m)) == m
    ensures m.focusIndex == TimeDisplayFocus ==> (Right(m) == m <==> m.timeDisplayIndex == |TimeDisplayOptions| - 1)
    ensures m.focusIndex == LanguageFocus ==> (Right(m) == m <==> m.languageIndex == |LanguageOptions| - 1)
    ensures m.focusIndex != TimeDisplayFocus && m.focusIndex != LanguageFocus ==>
              (Right(m) == m <==> m.activeTab == |Tabs| - 1)
  {
  }

  /** Choosing with a selector focused and pressing Enter stores the chosen
      option. */
  lemma ChooseThenSubmit(m: SettingModel, second: bool)
    ensures m.focusIndex == TimeDisplayFocus ==>
              Submit(Choose(m, second)).settings.timeDisplayMode == (if second then "normal" else "ansi")
    ensures m.focusIndex == LanguageFocus ==>
              Submit(Choose(m, second)).settings.language == (if second then "en" else "zh")
  {
  }
}
