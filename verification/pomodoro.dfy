/** The pomodoro timer of the terminal program (pkg/gomato/time.go): the
    once-a-second tick with its work/rest cycle, and the keys of the timer
    screen. The one-second scheduling, desktop notifications, saving the
    task file and the list's status line are outside the model: a step
    returns what it would show, notify and schedule as a `TickEffect`, and
    the broadcast to the room goes to the manager's outbox. */
module Pomodoro {
  import opened Wrappers
  import opened Numeric
  import opened AppViews
  import opened TaskList
  import AnsiArt
  import SettingsScreen
  import RoomUI
  import RoomManager
  import opened P2PTypes
  import opened Codec

  /** The part of `App` the timer reads and writes. */
  datatype App = App(
    view: View,
    taskIndex: int,
    tasks: seq<Task>,
    time: TimeModel,
    settings: SettingsScreen.Settings,
    cycleCount: Int64,
    room: RoomUI.RoomUIModel)

  /** The status line a tick asks for; `StatusText` renders it. */
  datatype Status =
    | RemainingTime(mode: string, remaining: int)
    | ShortRest(count: int, cycle: nat)
    | CycleDone
    | RestOver

  /** What a tick asks for besides the new state: a status line, a desktop
      notification, and whether another tick is scheduled. */
  datatype TickEffect = TickEffect(status: Option<Status>, notice: Option<string>, ticking: bool)

  /** The effect of a tick that does nothing (`handleTick` returns nil). */
  const Quiet: TickEffect := TickEffect(None, None, false)

  const WorkOverNotice: string := "工作时间结束，开始休息！"
  const CycleDoneText: string := "本周期已完成，进入长休息！"
  const RestOverText: string := "休息结束，开始新一轮工作！"
  const RemainingPrefix: string := "剩余时间: "

  const BackKeys: set<string> := {"q", "esc"}
  const StartPauseKey: string := " "
  const ResetKey: string := "r"

  /** `int(minutes) * 60` for a setting kept as a Go `uint`, wrapping as
      Go's `int` does. */
  function MinutesToSeconds(minutes: Uint64): (s: Int64)
    ensures minutes * 60 <= MaxInt64 ==> s == minutes * 60
  {
    WrapInt64(WrapInt64(minutes) * 60)
  }

  /** The three durations fit in Go's `int` once converted to seconds. */
  predicate DurationsFit(s: SettingsScreen.Settings) {
    && s.pomodoro * 60 <= MaxInt64
    && s.shortBreak * 60 <= MaxInt64
    && s.longBreak * 60 <= MaxInt64
  }

  /** Copying the running timer into the current task, when the index
      points at one. */
  function SyncTask(tasks: seq<Task>, index: int, t: TimeModel): (r: seq<Task>)
    ensures |r| == |tasks|
    ensures 0 <= index < |tasks| ==> r[index] == tasks[index].(timer := t)
    ensures forall i :: 0 <= i < |tasks| && i != index ==> r[i] == tasks[i]
  {
    if 0 <= index < |tasks| then tasks[index := tasks[index].(timer := t)] else tasks
  }

  /** The text of a status line. */
  function StatusText(s: Status): string {
    match s
    case RemainingTime(mode, remaining) => RemainingPrefix + TimeDisplay(mode, remaining)
    case ShortRest(count, cycle) =>
      "工作结束，开始休息！\n现在是休息时间！(第" + Itoa(count) + "/" + Itoa(cycle) + "次)"
    case CycleDone => CycleDoneText
    case RestOver => RestOverText
  }

  /** The remaining time as shown: plain digits in "normal" mode, large
      ASCII art in any other mode. */
  function TimeDisplay(mode: string, remaining: int): (s: string)
    ensures mode == "normal" ==> s == ClockText(remaining)
    ensures mode != "normal" ==> s == AnsiArt.TimeToAnsiArt(ClockText(remaining))
  {
    var clock := ClockText(remaining);
    if mode == "normal" then clock else AnsiArt.TimeToAnsiArt(clock)
  }

  /** The broadcast made when the app is in a room; its error is dropped. */
  function Broadcast(app: App, publish: Outcome<string>, now: Int64): RoomUI.RoomUIModel {
    if RoomUI.IsInRoom(app.room) then
      RoomUI.BroadcastState(app.room, app.time, app.tasks, app.taskIndex, publish, now).0
    else app.room
  }

  /** `handleTick`: a tick acts only on a running timer with time left. It
      counts down one second. When a work phase runs out the cycle count
      goes up, and the next phase is a short rest, or a long rest that
      restarts the count once the cycle is complete; when a rest runs out,
      a new work phase starts running. A phase change is announced and not
      broadcast; any other tick shows the remaining time and, in a room,
      broadcasts the new state. */
  function HandleTick(app: App, publish: Outcome<string>, now: Int64): (r: (App, TickEffect))
    ensures r.1 == Quiet <==> !(app.time.isRunning && app.time.remaining > 0)
    ensures r.1 == Quiet ==> r.0 == app
    ensures r.0.view == app.view && r.0.taskIndex == app.taskIndex && r.0.settings == app.settings
    ensures r.0.time.duration == app.time.duration
    ensures |r.0.tasks| == |app.tasks|
    ensures r.1 != Quiet ==> r.1.ticking && r.1.status.Some?
  {
    if !(app.time.isRunning && app.time.remaining > 0) then (app, Quiet)
    else
      var t := app.time.(remaining := app.time.remaining - 1);
      if t.remaining == 0 then
        if t.isWorkSession then
          var count := WrapInt64(app.cycleCount + 1);
          if count < WrapInt64(app.settings.cycle) then
            var rest := t.(isWorkSession := false, remaining := MinutesToSeconds(app.settings.shortBreak));
            (app.(time := rest, cycleCount := count, tasks := SyncTask(app.tasks, app.taskIndex, rest)),
             TickEffect(Some(ShortRest(count, app.settings.cycle)), Some(WorkOverNotice), true))
          else
            var rest := t.(isWorkSession := false, remaining := MinutesToSeconds(app.settings.longBreak));
            (app.(time := rest, cycleCount := 0, tasks := SyncTask(app.tasks, app.taskIndex, rest)),
             TickEffect(Some(CycleDone), Some(CycleDoneText), true))
        else
          var work := t.(isWorkSession := true, isRunning := true,
                         remaining := MinutesToSeconds(app.settings.pomodoro));
          (app.(time := work, tasks := SyncTask(app.tasks, app.taskIndex, work)),
           TickEffect(Some(RestOver), Some(RestOverText), true))
      else
        var counted := app.(time := t, tasks := SyncTask(app.tasks, app.taskIndex, t));
        (counted.(room := Broadcast(counted, publish, now)),
         TickEffect(Some(RemainingTime(app.settings.timeDisplayMode, t.remaining)), None, t.isRunning && t.remaining > 0))
  }

  /** `updateTimeView` for a key press; the result's flag says whether a
      tick is scheduled. Back saves the timer into the task and returns to
      the list; space toggles running and broadcasts; "r" stops the timer
      at the start of a work phase, saves and broadcasts. Other keys do
      nothing. */
  function UpdateTimeView(app: App, key: string, publish: Outcome<string>, now: Int64): (r: (App, bool))
    ensures r.0.taskIndex == app.taskIndex && r.0.settings == app.settings && r.0.cycleCount == app.cycleCount
    ensures r.0.time.duration == app.time.duration
    ensures |r.0.tasks| == |app.tasks|
    ensures key !in BackKeys ==> r.0.view == app.view
    ensures key !in BackKeys && key != StartPauseKey && key != ResetKey ==> r == (app, false)
    ensures r.1 ==> key == StartPauseKey
  {
    if key in BackKeys then
      (app.(tasks := SyncTask(app.tasks, app.taskIndex, app.time), view := TaskListView), false)
    else if key == StartPauseKey then
      var toggled := app.(time := app.time.(isRunning := !app.time.isRunning));
      (toggled.(room := Broadcast(toggled, publish, now)),
       toggled.time.isRunning && toggled.time.remaining > -2)
    else if key == ResetKey then
      var t := app.time.(isRunning := false, isWorkSession := true,
                         remaining := MinutesToSeconds(app.settings.pomodoro));
      var reset := app.(time := t, tasks := SyncTask(app.tasks, app.taskIndex, t));
      (reset.(room := Broadcast(reset, publish, now)), false)
    else (app, false)
  }

  /** `n` ticks in a row, with the same transport outcome and clock. */
  function Ticks(app: App, n: nat, publish: Outcome<string>, now: Int64): App
    decreases n
  {
    if n == 0 then app else Ticks(HandleTick(app, publish, now).0, n - 1, publish, now)
  }

  // ---------------------------------------------------------------------
  // One tick
  // ---------------------------------------------------------------------

  /** A tick with more than a second left counts down by exactly one and
      keeps the phase, the running flag and the cycle count. */
  lemma TickCountsDown(app: App, publish: Outcome<string>, now: Int64)
    requires app.time.isRunning && app.time.remaining > 1
    ensures var r := HandleTick(app, publish, now).0;
            && r.time == app.time.(remaining := app.time.remaining - 1)
            && r.cycleCount == app.cycleCount
            && r.tasks == SyncTask(app.tasks, app.taskIndex, r.time)
  {
  }

  /** The last second of a work phase: the count goes up, and the timer
      moves to a short rest while the count is below the cycle length, or
      to a long rest with the count back at zero once it reaches it. The
      timer keeps running through the change. */
  lemma WorkPhaseEnds(app: App, publish: Outcome<string>, now: Int64)
    requires app.time.isRunning && app.time.remaining == 1 && app.time.isWorkSession
    requires 0 <= app.cycleCount < MaxInt64 && app.settings.cycle <= MaxInt64
    requires DurationsFit(app.settings)
    ensures var (r, e) := HandleTick(app, publish, now);
            && r.time.isRunning && !r.time.isWorkSession
            && r.room == app.room
            && e.notice.Some?
            && (app.cycleCount + 1 < app.settings.cycle ==>
                  && r.cycleCount == app.cycleCount + 1
                  && r.time.remaining == app.settings.shortBreak * 60
                  && e.status == Some(ShortRest(app.cycleCount + 1, app.settings.cycle)))
            && (app.cycleCount + 1 >= app.settings.cycle ==>
                  && r.cycleCount == 0
                  && r.time.remaining == app.settings.longBreak * 60
                  && e.status == Some(CycleDone))
  {
  }

  /** The last second of a rest: a running work phase of the configured
      length starts, and the cycle count is kept. */
  lemma RestPhaseEnds(app: App, publish: Outcome<string>, now: Int64)
    requires app.time.isRunning && app.time.remaining == 1 && !app.time.isWorkSession
    requires DurationsFit(app.settings)
    ensures var (r, e) := HandleTick(app, publish, now);
            && r.time == app.time.(isWorkSession := true, isRunning := true,
                                   remaining := app.settings.pomodoro * 60)
            && r.cycleCount == app.cycleCount
            && r.room == app.room
            && e == TickEffect(Some(RestOver), Some(RestOverText), true)
  {
  }

  /** In "normal" mode a counting tick shows the remaining time as
      minutes and seconds (`ClockTextReadsBack` reads it back). */
  lemma TickShowsRemaining(app: App, publish: Outcome<string>, now: Int64)
    requires app.time.isRunning && app.time.remaining > 1
    requires app.settings.timeDisplayMode == "normal"
    ensures var e := HandleTick(app, publish, now).1;
            && e.status.Some?
            && StatusText(e.status.value) == RemainingPrefix + ClockText(app.time.remaining - 1)
  {
    var e := HandleTick(app, publish, now).1;
    assert e.status == Some(RemainingTime("normal", app.time.remaining - 1));
    NormalStatusText(app.time.remaining - 1);
  }

  /** The plain status line of a counting tick. */
  lemma NormalStatusText(remaining: int)
    ensures StatusText(RemainingTime("normal", remaining)) == RemainingPrefix + ClockText(remaining)
  {
  }

  /** A counting tick in a room whose manager holds a topic publishes one
      state update carrying the new remaining time. */
  lemma TickBroadcastsInRoom(app: App, now: Int64)
    requires app.time.isRunning && app.time.remaining > 1
    requires RoomUI.IsInRoom(app.room)
    requires app.room.manager.room.Some? && app.room.manager.topic.Some?
    ensures var r := HandleTick(app, Pass, now).0;
            var m := RoomUI.CreateMemberFromApp(app.room.manager.selfId, r.time, r.tasks, r.taskIndex, now);
            && r.room.manager.outbox == app.room.manager.outbox + [EncodeMessage(Message(StateUpdate, Some(m), ""))]
            && m.timer.remaining == app.time.remaining - 1
            && m.state == (if app.time.isWorkSession then Work else Rest)
  {
  }

  /** Outside a room no tick touches the room panel or the manager. */
  lemma TickOutsideRoomIsLocal(app: App, publish: Outcome<string>, now: Int64)
    requires !RoomUI.IsInRoom(app.room)
    ensures HandleTick(app, publish, now).0.room == app.room
  {
  }

  // ---------------------------------------------------------------------
  // Invariants
  // ---------------------------------------------------------------------

  /** The timer's invariant: no negative time, and a cycle count inside the
      cycle. */
  predicate Healthy(app: App) {
    && 0 <= app.time.remaining
    && 1 <= app.settings.cycle <= MaxInt64
    && 0 <= app.cycleCount < app.settings.cycle
    && DurationsFit(app.settings)
  }

  /** A tick keeps the timer healthy. */
  lemma TickKeepsHealthy(app: App, publish: Outcome<string>, now: Int64)
    requires Healthy(app)
    ensures Healthy(HandleTick(app, publish, now).0)
  {
  }

  /** Every key of the timer screen keeps the timer healthy. */
  lemma KeysKeepHealthy(app: App, key: string, publish: Outcome<string>, now: Int64)
    requires Healthy(app)
    ensures Healthy(UpdateTimeView(app, key, publish, now).0)
  {
  }

  /** Any number of ticks keeps the timer healthy. */
  lemma {:induction false} TicksKeepHealthy(app: App, n: nat, publish: Outcome<string>, now: Int64)
    requires Healthy(app)
    ensures Healthy(Ticks(app, n, publish, now))
    decreases n
  {
    if n > 0 {
      var next := HandleTick(app, publish, now).0;
      TickKeepsHealthy(app, publish, now);
      TicksKeepHealthy(next, n - 1, publish, now);
      assert Ticks(app, n, publish, now) == Ticks(next, n - 1, publish, now);
    }
  }

  /** Within a phase, `n` ticks take exactly `n` seconds off and change
      nothing else about the timer or the cycle. */
  lemma {:induction false} TicksCountDown(app: App, n: nat, publish: Outcome<string>, now: Int64)
    requires app.time.isRunning && n < app.time.remaining
    ensures var r := Ticks(app, n, publish, now);
            && r.time == app.time.(remaining := app.time.remaining - n)
            && r.cycleCount == app.cycleCount
            && r.settings == app.settings
    decreases n
  {
    if n > 0 {
      var next := HandleTick(app, publish, now).0;
      TickCountsDown(app, publish, now);
      TicksCountDown(next, n - 1, publish, now);
      assert Ticks(app, n, publish, now) == Ticks(next, n - 1, publish, now);
    }
  }

  // ---------------------------------------------------------------------
  // Keys
  // ---------------------------------------------------------------------

  /** Space toggles only the running flag, so pressing it twice restores
      the timer; outside a room nothing at all has changed. */
  lemma StartPauseTwiceRestores(app: App, publish: Outcome<string>, now: Int64)
    ensures var once := UpdateTimeView(app, StartPauseKey, publish, now).0;
            var twice := UpdateTimeView(once, StartPauseKey, publish, now).0;
            && once.time == app.time.(isRunning := !app.time.isRunning)
            && twice.time == app.time && twice.tasks == app.tasks
            && (!RoomUI.IsInRoom(app.room) ==> twice == app)
  {
  }

  /** Reset puts the timer at the start of a stopped work phase, saves it
      into the current task, and doing it again changes nothing more
      (outside a room, not even the panel). */
  lemma ResetIsIdempotent(app: App, publish: Outcome<string>, now: Int64)
    requires DurationsFit(app.settings)
    ensures var once := UpdateTimeView(app, ResetKey, publish, now).0;
            var twice := UpdateTimeView(once, ResetKey, publish, now).0;
            && once.time == TimeModel(app.time.duration, app.settings.pomodoro * 60, false, true)
            && (0 <= app.taskIndex < |app.tasks| ==> once.tasks[app.taskIndex].timer == once.time)
            && twice.time == once.time && twice.tasks == once.tasks && twice.cycleCount == once.cycleCount
            && (!RoomUI.IsInRoom(app.room) ==> twice == once)
  {
  }

  /** Back saves the timer into the current task and returns to the task
      list without touching the timer. */
  lemma BackSavesTimer(app: App, key: string, publish: Outcome<string>, now: Int64)
    requires key in BackKeys
    ensures var r := UpdateTimeView(app, key, publish, now).0;
            && r.view == TaskListView && r.time == app.time && r.room == app.room
            && (0 <= app.taskIndex < |app.tasks| ==> r.tasks[app.taskIndex].timer == app.time)
            && (forall i :: 0 <= i < |app.tasks| && i != app.taskIndex ==> r.tasks[i] == app.tasks[i])
  {
  }
}
