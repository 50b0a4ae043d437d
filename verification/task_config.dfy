/** The per-task timer configuration (config/config.go). Durations are Go
    `time.Duration` values: 64-bit counts of nanoseconds. */
module TaskConfig {
  import opened Numeric

  const Nanosecond: int := 1
  const Minute: int := 60 * 1_000_000_000 * Nanosecond

  datatype TaskConfig = TaskConfig(workDuration: Int64, breakDuration: Int64, taskName: string)

  /** `DefaultTaskConfig`: 25 minutes of work, 5 of break. */
  const DefaultTaskConfig: TaskConfig := TaskConfig(25 * Minute, 5 * Minute, "默认任务")

  /** `SetWork`: only the work duration changes. */
  function SetWork(c: TaskConfig, d: Int64): (r: TaskConfig)
    ensures r.workDuration == d
    ensures r.breakDuration == c.breakDuration && r.taskName == c.taskName
  {
    c.(workDuration := d)
  }

  /** `SetBreak`: only the break duration changes. */
  function SetBreak(c: TaskConfig, d: Int64): (r: TaskConfig)
    ensures r.breakDuration == d
    ensures r.workDuration == c.workDuration && r.taskName == c.taskName
  {
    c.(breakDuration := d)
  }

  /** The default durations, in minutes. */
  lemma DefaultsInMinutes()
    ensures DefaultTaskConfig.workDuration / Minute == 25 && DefaultTaskConfig.workDuration % Minute == 0
    ensures DefaultTaskConfig.breakDuration / Minute == 5 && DefaultTaskConfig.breakDuration % Minute == 0
    ensures DefaultTaskConfig.taskName == "默认任务"
  {
  }

  /** Repeated setters: the last value written is the one kept. */
  lemma LastWriteWins(c: TaskConfig, a: Int64, b: Int64)
    ensures SetWork(SetWork(c, a), b) == SetWork(c, b)
    ensures SetBreak(SetBreak(c, a), b) == SetBreak(c, b)
  {
  }

  /** The two setters touch different fields, so their order does not
      matter, and writing back a field's own value changes nothing. */
  lemma SettersCommute(c: TaskConfig, w: Int64, b: Int64)
    ensures SetBreak(SetWork(c, w), b) == SetWork(SetBreak(c, b), w)
    ensures SetWork(c, c.workDuration) == c && SetBreak(c, c.breakDuration) == c
  {
  }
}
