/** The screens of the terminal program (pkg/gomato/app.go), in the order
    of their `iota` constants. */
module AppViews {
  datatype View = TaskListView | TaskInputView | TimeView | SettingView
}
