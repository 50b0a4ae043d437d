# gomato in Dafny

gomato is a terminal Pomodoro timer with a task list and optional "rooms".
Peers on the local network find each other, join a shared room topic, and see
each other's timers. This project is a functional model of gomato's core,
written as pure Dafny functions over immutable values, with proofs of the
properties the code promises.

The modules follow the Go packages:

- **P2P protocol (pkg/p2p)**
  - `P2PTypes`: member states and message kinds, with their wire strings.
  - `Json` and `Codec`: `json.Marshal`/`json.Unmarshal` of the protocol types, as a JSON value tree. The struct tags decide field names, field order and `omitempty`.
  - `Messages`: validation, serialization and the message constructors.
  - `RoomManager`: joining and leaving a room, the receive loop, member-map updates and state broadcast.
  - `Discovery`: the peer table of the discovery service.
- **Timer screen and room panel (pkg/gomato)**
  - `Pomodoro`: the timer screen, i.e. `handleTick` and `updateTimeView`.
  - `RoomUI`: the room panel, i.e. the join-ordered member list, key handling and broadcast of the local timer.
  - `SettingsScreen`: the settings form.
  - `TaskInput`: the new-task form.
  - `AppViews`: the view identifiers.
- **Smaller packages**
  - `TaskList`: the index-based task list (pkg/task).
  - `TaskManager`: the id-based task manager (task).
  - `CmdTaskInput`: the older two-field task form (cmd/gomato).
  - `TaskConfig`: task configuration (config).
  - `AnsiArt`: the large ASCII-art clock (pkg/common).
- **Shared support**
  - `Numeric`: Go's 64-bit integers, truncating `/` and `%`, `%d`, `%02d` and `strconv.Atoi`.
  - `Text`: `strings.Join`/`strings.Split` on lines.
  - `Wrappers`: `Option`, `Result` and `Outcome`.

Outside effects are parameters:

- **Transport:** every publish, join and subscribe is an `Outcome` argument. A successful publish appends the message, as a JSON value, to the manager's outbox.
- **Clocks:** `now` is an argument.
- **Map iteration:** Go's unspecified map order is a caller-supplied enumeration `visit`.
- **Live connections:** the set of peers with a live connection is a `live` argument.

Points where the code behaves in a way a reader might not expect, and the model follows the code:

- The receive loop (pkg/p2p/room.go:109-140) applies every message that decodes, without validating it.
- `BroadcastState` (pkg/p2p/room.go:243-273) marshals the message without validating it.
- A Join for a member already present does not overwrite that member (pkg/p2p/room.go:160-166).
- `JoinRoom` replaces the room even when the key is the current one (pkg/p2p/room.go:48-52).
- `GetPeers` and `GetMembers` copy only the map (pkg/p2p/discovery.go:218-221, pkg/p2p/room.go:236-239), and `GetPeerInfo` returns the stored entry itself (pkg/p2p/discovery.go:254); the entries stay shared with the service. The model has values, not pointers (see "Left out").

## Model

| member | source | states |
|---|---|---|
| P2PTypes.StateFromWire | pkg/p2p/types.go:4-10 | every wire string reads as exactly one state; idle, work and rest read as the named states; writing the state back gives the same string |
| P2PTypes.StateWireRoundTrip | pkg/p2p/types.go:4-10 | reading the wire string of any state gives that state back |
| P2PTypes.StateWireInjective | pkg/p2p/types.go:4-10 | two states with the same wire string are the same state |
| P2PTypes.TypeFromWire | pkg/p2p/types.go:38-44 | every wire string reads as exactly one message kind, and state_update, join and leave read as the named kinds |
| P2PTypes.TypeWireRoundTrip | pkg/p2p/types.go:38-44 | reading the wire string of any message kind gives that kind back |
| Codec.EncodeMessage | pkg/p2p/types.go:47-51 | the encoding is an object with the type field; the member field is present iff there is a member, and the roomKey field iff the key is non-empty (omitempty) |
| Codec.DecodeTimer | pkg/p2p/types.go:23-28 | an absent or null timer decodes as the zero timer |
| Codec.DecodeMember | pkg/p2p/types.go:13-21 | an absent or null member decodes as nil |
| Codec.DecodeMessage | pkg/p2p/message.go:63-67 | top-level null decodes as the zero message; any other non-object is an error |
| Codec.TimerRoundTrip | pkg/p2p/types.go:23-28 | decoding an encoded timer gives the same timer |
| Codec.MemberFieldsReadBack | pkg/p2p/types.go:13-21 | each of the six member fields reads back from the encoding as the value written |
| Codec.DecodeMemberFieldsFrom | pkg/p2p/types.go:13-21 | fields that hold a member's encoded values decode to that member |
| Codec.MemberRoundTrip | pkg/p2p/types.go:13-21 | decoding an encoded member gives the same member, nested timer included |
| Codec.MessageMemberReadsBack | pkg/p2p/types.go:47-51 | the member field of an encoded message decodes to the message's member, or to nil when there is none |
| Codec.MessageKeyReadsBack | pkg/p2p/types.go:47-51 | the roomKey field of an encoded message decodes to the key, including the empty key that omitempty drops |
| Codec.MessageRoundTrip | pkg/p2p/types.go:47-51 | every message, valid or not, decodes back to itself |
| Messages.Validate | pkg/p2p/message.go:11-46 | passes iff the message is non-nil, of a known kind and has a member with an id, and a state update's member also has a name; reports nil, unknown-kind and empty-id errors |
| Messages.Serialize | pkg/p2p/message.go:49-60 | fails exactly for invalid messages, prefixing the validation error; a success decodes back to the message |
| Messages.Deserialize | pkg/p2p/message.go:63-74 | succeeds iff the data decodes to a valid message, which is returned |
| Messages.SerializeRoundTrip | pkg/p2p/message.go:49-74 | a valid message survives serialize then deserialize unchanged |
| Messages.CreateStateUpdateMessage | pkg/p2p/message.go:77-83 | a state update carrying the member and no room key, so the key is omitted on the wire |
| Messages.CreateJoinMessage | pkg/p2p/message.go:85-92 | a join carrying the member and the key |
| Messages.CreateLeaveMessage | pkg/p2p/message.go:94-101 | a leave carrying the member and the key |
| Messages.CreatedMessagesValidity | pkg/p2p/message.go:11-46 | a built state update is valid iff its member has an id and a name; a join or leave needs only the id; a join without a member is invalid |
| Messages.CreateMemberFromNode | pkg/p2p/message.go:103-113 | every field of the member comes from the corresponding argument, stamped with the clock |
| Messages.IsMessageFromSelf | pkg/p2p/message.go:115-120 | false for a nil message or member; otherwise true iff the member id is the node's id |
| RoomManager.NewManager | pkg/p2p/room.go:25-41 | a new manager has an empty, non-nil member map, no topic, no subscription and nothing sent |
| RoomManager.Publish | pkg/p2p/room.go:174-199 | a successful publish appends the encoded message to the outbox; a failed one changes nothing |
| RoomManager.JoinRoom | pkg/p2p/room.go:43-78 | the room is replaced by an empty one for the key in every case; succeeds iff join and subscribe succeed; the topic is set once join succeeds; a successful join announces this node with a Join when the publish succeeds |
| RoomManager.LeaveRoomAsWritten | pkg/p2p/room.go:80-107 | as written, panics exactly when there is a room but no topic; with no room it is a no-op |
| RoomManager.LeaveRoomOnFreshManagerPanics | pkg/p2p/room.go:25-41 | LeaveRoom as written panics on a freshly built manager |
| RoomManager.LeaveRoom | pkg/p2p/room.go:80-107 | never fails; with no room nothing changes; otherwise room, topic and subscription are cleared, and a Leave is sent exactly when a topic exists and the publish succeeds |
| RoomManager.LeaveRoomAgreesWhenTopicPresent | pkg/p2p/room.go:80-107 | wherever the as-written LeaveRoom does not panic, the corrected one behaves the same |
| RoomManager.ApplyToMembers | pkg/p2p/room.go:142-172 | only the message's member id can change; a state update overwrites it; a join inserts only an absent id; a leave removes it; a message without a member or of another kind changes nothing; the map stays keyed by id |
| RoomManager.HandleMessage | pkg/p2p/room.go:142-172 | with no room nothing changes; otherwise only the member map changes, as the message dictates |
| RoomManager.Receive | pkg/p2p/room.go:109-140 | with no subscription, or data that does not decode, nothing changes; anything that decodes is handled without validation |
| RoomManager.GetMembers | pkg/p2p/room.go:228-241 | absent iff there is no room; otherwise a map with the same ids and members as the room's |
| RoomManager.BroadcastState | pkg/p2p/room.go:243-273 | without a room or topic, "not in a room" and nothing sent; otherwise the publish result is returned and a state update is sent on success; room, topic and subscription never change |
| RoomManager.LoopbackIsHandle | pkg/p2p/room.go:109-172 | receiving a message this node published has the same effect as handling the message itself |
| RoomManager.JoinThenOwnAnnouncement | pkg/p2p/room.go:43-78 | after a fully successful join, the node's own Join, fed back, makes it the one member of the room: idle, with the default name and a zero timer |
| RoomManager.JoinThenLeaveHasNoMembers | pkg/p2p/room.go:43-107 | after JoinRoom then LeaveRoom, GetMembers is absent, not empty |
| RoomManager.LeaveRoomIdempotent | pkg/p2p/room.go:80-107 | a second LeaveRoom is a no-op without error |
| RoomManager.StateUpdateLastWriteWins | pkg/p2p/room.go:155-159 | of two state updates for one id, the one applied second is kept |
| RoomManager.JoinOfKnownIdIsNoOp | pkg/p2p/room.go:160-166 | a Join for a member already present changes nothing |
| RoomManager.LeaveOfUnknownIdIsNoOp | pkg/p2p/room.go:167-171 | a Leave for an absent id changes nothing |
| RoomManager.DifferentMembersCommute | pkg/p2p/room.go:142-172 | messages about different members give the same map in either order |
| RoomManager.UnvalidatedStateUpdateIsApplied | pkg/p2p/room.go:243-273 | a nameless member's state update is broadcast and applied on receipt, though Deserialize would reject it |
| Discovery.NewService | pkg/p2p/discovery.go:38-55 | the peer table starts empty and the callbacks are as given |
| Discovery.HandlePeerFound | pkg/p2p/discovery.go:90-122 | a known peer gets only new addresses and lastSeen, with no events; a new peer is inserted idle and unconnected, a dial is requested and onPeerFound fires if set; other peers are untouched |
| Discovery.ConnectSucceeded | pkg/p2p/discovery.go:124-145 | after a connect, a peer still in the table becomes connected and seen now; nothing else changes |
| Discovery.CheckConnections | pkg/p2p/discovery.go:162-187 | each peer's connected flag becomes whether it is live, and lastSeen is refreshed for live peers; onPeerLost fires exactly for peers that went from connected to not live |
| Discovery.Cleanup | pkg/p2p/discovery.go:189-211 | exactly the peers seen within five minutes remain, unchanged |
| Discovery.GetPeers | pkg/p2p/discovery.go:213-223 | a map with the same ids and the same entries as the table |
| Discovery.GetConnectedPeers | pkg/p2p/discovery.go:225-237 | exactly the connected peer ids, each once |
| Discovery.UpdatePeerState | pkg/p2p/discovery.go:239-248 | a known peer gets the state and lastSeen; an unknown id changes nothing |
| Discovery.GetPeerInfo | pkg/p2p/discovery.go:250-256 | nil iff the id is unknown; otherwise the peer's entry (shared in Go, a value here) |
| Discovery.RediscoveryIsQuiet | pkg/p2p/discovery.go:97-102 | rediscovering a known peer neither dials nor notifies, and keeps its connection flag and state |
| Discovery.ConnectedAfterCheck | pkg/p2p/discovery.go:162-237 | after a check, the connected peers are exactly the tracked peers that are live |
| Discovery.ConnectedPeerSurvivesCleanup | pkg/p2p/discovery.go:162-211 | a peer connected at a check survives any cleanup within five minutes |
| Discovery.StepsKeepTableKeyed | pkg/p2p/discovery.go:90-248 | every step keeps the table keyed by peer id |
| Numeric.ClockText | pkg/gomato/room_ui.go:360-368 | the text is the two zero-padded fields of Go's truncating seconds/60 and seconds%60, joined by a colon |
| Numeric.ClockTextReadsBack | pkg/gomato/room_ui.go:360-368 | for a non-negative time, the minutes and seconds fields read back as seconds/60 and seconds%60 |
| Numeric.Atoi | pkg/gomato/setting.go:203-215 | accepted iff the text is an optional sign followed by at least one digit and the signed value fits in 64 bits; the result is that signed value; plain digits read as their value |
| Numeric.AtoiSigned | pkg/gomato/setting.go:203-215 | a minus sign negates the digits, a plus sign changes nothing, and plain digits beyond the 64-bit maximum are rejected |
| Numeric.AtoiItoa | pkg/gomato/setting.go:57-69 | Atoi reads back every 64-bit number that %d writes |
| SettingsScreen.Min | pkg/gomato/setting.go:485-490 | the result is one of the two arguments and no larger than either |
| SettingsScreen.Max | pkg/gomato/setting.go:478-483 | the result is one of the two arguments and no smaller than either |
| SettingsScreen.SetValue | pkg/gomato/setting.go:44-69 | a value is kept if it has at most three characters, else cut to its first three |
| SettingsScreen.SelectorIndex | pkg/gomato/setting.go:28-39 | a selector shows index 1 iff the stored value is the second option ("normal", "en"), and 0 otherwise |
| SettingsScreen.NewSettingModel | pkg/gomato/setting.go:16-77 | the screen starts valid, on the first input and tab, with selectors taken from the settings |
| SettingsScreen.UintIntRoundTrip | pkg/gomato/setting.go:203-223 | converting a uint to int and back gives the same uint |
| SettingsScreen.ParseOr | pkg/gomato/setting.go:203-223 | text that does not parse keeps the current value; parsed text is stored through uint, unchanged when non-negative |
| SettingsScreen.SelectorName | pkg/gomato/setting.go:226-237 | Enter stores the second option ("normal", "en") iff the index is 1, and the first ("ansi", "zh") otherwise |
| SettingsScreen.SelectorRoundTrip | pkg/gomato/setting.go:28-39 | showing then storing keeps a value iff it is one of the two options; storing then showing keeps an index iff it is 0 or 1 |
| SettingsScreen.Submit | pkg/gomato/setting.go:201-241 | Enter changes only the settings: each number is parsed from its input and each selector is stored by name |
| SettingsScreen.StepFocus | pkg/gomato/setting.go:256-286 | focus moves one step forward or back around the seven positions |
| SettingsScreen.MoveFocus | pkg/gomato/setting.go:256-286 | focus moves one step, and the input at the new position, if any, takes keyboard focus; nothing else changes |
| SettingsScreen.Right | pkg/gomato/setting.go:287-295 | the focused selector, or else the tab, moves one step right, stopping at the last entry |
| SettingsScreen.Left | pkg/gomato/setting.go:296-304 | the focused selector, or else the tab, moves one step left, stopping at the first entry |
| SettingsScreen.Choose | pkg/gomato/setting.go:306-320 | 1 or 2 picks the first or second option of the focused selector; with no selector focused nothing changes |
| SettingsScreen.NextCursorMode | pkg/gomato/setting.go:244-253 | ctrl+r moves the cursor mode to the next one, wrapping to blink after hidden |
| SettingsScreen.Update | pkg/gomato/setting.go:193-328 | each key's effect: ctrl+c quits, q/esc go back, Enter submits and goes back, ctrl+r advances the cursor mode and changes nothing else, the focus, arrow and choice keys act as above, and keys other than those that submit or quit leave the settings unchanged |
| SettingsScreen.UpdateKeepsValid | pkg/gomato/setting.go:193-328 | every key keeps focus, selectors and tab within range |
| SettingsScreen.FocusStepsAreInverse | pkg/gomato/setting.go:256-286 | a step forward and a step back cancel out |
| SettingsScreen.FocusCycleHasSevenPositions | pkg/gomato/setting.go:256-286 | seven forward steps return to the start |
| SettingsScreen.ShortNumberFits | pkg/gomato/setting.go:57-69 | a number of at most three digits is shown in full |
| SettingsScreen.ConstructThenSubmit | pkg/gomato/setting.go:16-241 | opening the screen and pressing Enter keeps every setting below 1000, with the mode and language normalised |
| SettingsScreen.LongNumberIsCut | pkg/gomato/setting.go:57-69 | a four-digit pomodoro length of 1500 comes back as 150 after open then Enter |
| SettingsScreen.SubmitIsIdempotent | pkg/gomato/setting.go:16-241 | normalised settings are a fixed point of open then Enter |
| SettingsScreen.CursorModeCycles | pkg/gomato/setting.go:244-253 | three ctrl+r presses restore the cursor mode, and each press changes it |
| SettingsScreen.LeftUndoesRight | pkg/gomato/setting.go:287-304 | left undoes any right that moved something, and right stays put exactly at the last entry |
| SettingsScreen.ChooseThenSubmit | pkg/gomato/setting.go:201-320 | a choice made with 1 or 2 is what Enter stores |
| TaskList.AddItem | pkg/task/task.go:87-90 | one more task at the end with a zero timer; the earlier tasks are kept |
| TaskList.AddedTaskReadsBack | pkg/task/task.go:27-29 | a task just added shows and filters by the given title and shows the given description |
| TaskList.DeleteItem | pkg/task/task.go:93-99 | an out-of-range index changes nothing; otherwise that entry is removed and the others keep their order |
| TaskList.DeleteUndoesAdd | pkg/task/task.go:87-99 | deleting the task just added restores the list |
| TaskList.StatusLine | pkg/task/task.go:105-112 | a single line showing the running or paused status |
| TaskList.TimeLine | pkg/task/task.go:102-111 | the remaining-time row is a single line |
| TaskList.ViewRowsAreLines | pkg/task/task.go:101-114 | no row of the view contains a newline |
| TaskList.ViewLines | pkg/task/task.go:101-114 | the view has six lines; the third shows the remaining time and the fourth the status |
| Pomodoro.MinutesToSeconds | pkg/gomato/time.go:38-72 | minutes become minutes*60 seconds whenever that fits in 64 bits |
| Pomodoro.SyncTask | pkg/gomato/time.go:95-98 | the current task's timer becomes the screen's timer; every other task is kept |
| Pomodoro.TimeDisplay | pkg/gomato/time.go:86-92 | "normal" mode shows mm:ss, and every other mode shows its ASCII art |
| Pomodoro.HandleTick | pkg/gomato/time.go:26-112 | a tick is quiet and changes nothing iff the timer is not running with time left; otherwise it reports a status and schedules the next tick; view, task index, settings and duration are kept |
| Pomodoro.UpdateTimeView | pkg/gomato/time.go:114-153 | only back keys change the view; keys other than back, space and r change nothing; only space can schedule a tick |
| Pomodoro.TickCountsDown | pkg/gomato/time.go:27-28 | a tick with more than a second left takes one second off and syncs the task's timer |
| Pomodoro.WorkPhaseEnds | pkg/gomato/time.go:30-67 | at the end of work the count goes up; below the cycle length a short rest starts, otherwise the count resets and a long rest starts; the rest runs, a notice is raised and nothing is broadcast |
| Pomodoro.RestPhaseEnds | pkg/gomato/time.go:68-84 | at the end of a rest a new running work phase of pomodoro minutes starts, with the rest-over notice |
| Pomodoro.TickShowsRemaining | pkg/gomato/time.go:86-93 | in normal mode the status reads "剩余时间: " followed by mm:ss of the new remaining time |
| Pomodoro.NormalStatusText | pkg/gomato/time.go:86-93 | the remaining-time status in normal mode is the prefix followed by mm:ss |
| Pomodoro.TickBroadcastsInRoom | pkg/gomato/time.go:100-103 | in a room, an ordinary tick publishes a state update with the new remaining time and the work or rest state |
| Pomodoro.TickOutsideRoomIsLocal | pkg/gomato/time.go:100-103 | outside a room a tick leaves the room panel untouched |
| Pomodoro.TickKeepsHealthy | pkg/gomato/time.go:26-112 | a tick keeps the remaining time non-negative, the cycle count in [0, cycle), the cycle length in [1, MaxInt64] and the durations in 64 bits |
| Pomodoro.KeysKeepHealthy | pkg/gomato/time.go:114-153 | the timer-screen keys keep the same invariant |
| Pomodoro.TicksKeepHealthy | pkg/gomato/time.go:26-112 | any number of ticks keeps the invariant |
| Pomodoro.TicksCountDown | pkg/gomato/time.go:26-112 | n ticks within a phase take exactly n seconds off and change nothing else in the timer |
| Pomodoro.StartPauseTwiceRestores | pkg/gomato/time.go:128-137 | space toggles running; pressing it twice restores the timer and tasks, and outside a room the whole app |
| Pomodoro.ResetIsIdempotent | pkg/gomato/time.go:138-150 | r stops the timer at a full work phase and syncs the task; a second r leaves the timer, tasks and cycle count as they are, and outside a room changes nothing at all (in a room it broadcasts the state again) |
| Pomodoro.BackSavesTimer | pkg/gomato/time.go:121-127 | q/esc return to the task list and save the timer into the current task only |
| TaskManager.FirstIndex | task/task.go:94-100 | the first position holding the id, or none iff no task has it |
| TaskManager.AddTask | task/task.go:31-41 | the new task gets id count+1, no end time, and is appended |
| TaskManager.CompleteTask | task/task.go:43-53 | fails with "not found" iff no task has the id; otherwise only that task is marked completed with the end time |
| TaskManager.GetTaskStats | task/task.go:59-68 | returns the task count and the number completed, which lies between 0 and the count |
| TaskManager.RecentCount | task/task.go:71-74 | n when 0 < n <= count, else the count |
| TaskManager.GetRecentTasks | task/task.go:71-80 | a suffix of the list, of the recent-count length |
| TaskManager.GetIncompleteTasks | task/task.go:83-91 | exactly the tasks not completed; with the completed ones they account for every task |
| TaskManager.GetTaskByID | task/task.go:94-101 | the first task with the id, or the not-found error iff there is none |
| TaskManager.Renumber | task/task.go:167-169 | tasks from the position on get id position+1; earlier ones are kept |
| TaskManager.DeleteTask | task/task.go:160-179 | an unknown id gives "not found" with no change; otherwise the first match is removed, later tasks are renumbered and the save error, if any, is wrapped |
| TaskManager.DeleteAllTasks | task/task.go:182-194 | the list becomes empty |
| TaskManager.OperationsKeepNumbering | task/task.go:31-194 | adding, completing and deleting keep ids equal to positions plus one |
| TaskManager.LookupByPosition | task/task.go:94-101 | with ids numbered by position, an id is found iff it is in 1..count, and it is the task at id-1 |
| TaskManager.AddedTaskIsFound | task/task.go:31-101 | a task just added is found by its id |
| TaskManager.DeleteUndoesAdd | task/task.go:31-179 | deleting a task just added restores the list |
| TaskManager.CompletingCounts | task/task.go:43-68 | completing raises the completed count by one exactly when the task was found and not yet completed |
| TaskManager.CountAfterUpdate | task/task.go:59-68 | replacing one task changes the completed count by the change in that task's flag |
| TaskManager.IncompleteOfConcat | task/task.go:83-91 | the incomplete tasks of a concatenation are those of each part in order |
| TaskInput.NewTaskInputModel | pkg/gomato/input.go:26-45 | the form starts valid, empty, with focus on the title |
| TaskInput.FocusOn | pkg/gomato/input.go:85-124 | only the focus changes, and any position 0..2 gives a valid form |
| TaskInput.NextInput | pkg/gomato/input.go:85-101 | focus moves forward around title, description and submit; the text is kept |
| TaskInput.PrevInput | pkg/gomato/input.go:103-124 | focus moves back and wraps from the title to submit; the text is kept |
| TaskInput.Update | pkg/gomato/input.go:51-83 | Enter on submit creates the task from the title and description; Enter elsewhere moves on; esc and ctrl+c go back; nothing else creates a task |
| TaskInput.HandleBack | pkg/gomato/input.go:150-154 | going back shows the task list with a fresh form |
| TaskInput.UpdateKeepsValid | pkg/gomato/input.go:51-83 | every key keeps focus flags and position in agreement |
| TaskInput.NextPrevAreInverse | pkg/gomato/input.go:85-124 | next and previous undo each other |
| TaskInput.FocusCycleHasThreePositions | pkg/gomato/input.go:85-101 | three steps forward return to the start, and one or two do not |
| TaskInput.ThirdEnterCreates | pkg/gomato/input.go:51-67 | from a fresh form, two Enters reach submit and the third creates the task |
| CmdTaskInput.NewTaskInputModel | cmd/gomato/task_input.go:22-40 | the form starts valid with two empty inputs and focus on the first |
| CmdTaskInput.FocusOn | cmd/gomato/task_input.go:81-108 | only the focused input is marked focused; values are kept |
| CmdTaskInput.NextInput | cmd/gomato/task_input.go:81-92 | focus moves to the other input, wrapping, and values are kept |
| CmdTaskInput.PrevInput | cmd/gomato/task_input.go:94-108 | focus moves back, wrapping from the first to the last, and values are kept |
| CmdTaskInput.Update | cmd/gomato/task_input.go:46-79 | Enter on the last input creates the task from both values; Enter elsewhere moves on; esc and ctrl+c go back |
| CmdTaskInput.UpdateKeepsValid | cmd/gomato/task_input.go:46-79 | every key keeps the focus flags in agreement with the position |
| CmdTaskInput.TwoPositions | cmd/gomato/task_input.go:81-108 | with two inputs next equals previous, and two steps return to the start |
| CmdTaskInput.SecondEnterCreates | cmd/gomato/task_input.go:53-63 | from a fresh form the second Enter creates the task |
| TaskConfig.SetWork | config/config.go:23-25 | only the work duration changes |
| TaskConfig.SetBreak | config/config.go:27-29 | only the break duration changes |
| TaskConfig.DefaultsInMinutes | config/config.go:17-21 | the defaults are exactly 25 and 5 minutes, with the default task name |
| TaskConfig.LastWriteWins | config/config.go:23-29 | a second set of the same duration overrides the first |
| TaskConfig.SettersCommute | config/config.go:23-29 | the two setters commute, and setting the current value changes nothing |
| AnsiArt.Glyph | pkg/common/ansi.go:102-129 | a character has a glyph iff it is a digit or a colon |
| AnsiArt.Glyphs | pkg/common/ansi.go:102-129 | at most one glyph per character, and none iff the text has no digit or colon |
| AnsiArt.PadRows | pkg/common/ansi.go:136-143 | a glyph shorter than eight rows is padded with blank rows to exactly eight; the original rows stay in front |
| AnsiArt.BlockRows | pkg/common/ansi.go:136-143 | every glyph block has at least eight rows, none containing a newline |
| AnsiArt.GlyphsOfConcat | pkg/common/ansi.go:102-129 | the glyphs of a concatenation are those of each part |
| AnsiArt.OtherCharsContributeNothing | pkg/common/ansi.go:102-129 | characters other than digits and colons are skipped |
| AnsiArt.NoArtIsIdentity | pkg/common/ansi.go:131-133 | text without digits or colons is returned unchanged |
| AnsiArt.JoinHasNoNewline | pkg/common/ansi.go:145-156 | joining newline-free rows with a newline-free gap gives a newline-free row |
| AnsiArt.ArtLayout | pkg/common/ansi.go:136-156 | the art is exactly eight lines, and line i is row i of each glyph joined by a two-space gap |
| RoomUI.NewRoomUIModel | pkg/gomato/room_ui.go:75-107 | the panel starts hidden with no join orders and the next order 1 |
| RoomUI.StateText | pkg/gomato/room_ui.go:346-357 | each state has its own label, and any other state is "未知" |
| RoomUI.TimerText | pkg/gomato/room_ui.go:360-368 | a stopped timer shows nothing, and a running one shows mm:ss of its remaining time |
| RoomUI.TimerTextExample | pkg/gomato/room_ui.go:360-368 | 125 seconds remaining shows as 02:05 |
| RoomUI.AssignOrders | pkg/gomato/room_ui.go:137-144 | recorded orders are kept, every visited id gets one, and new ids get fresh orders from the counter up |
| RoomUI.AssignOrdersFirst | pkg/gomato/room_ui.go:137-144 | the first new id gets the current counter |
| RoomUI.AssignOrdersIncreasing | pkg/gomato/room_ui.go:137-144 | new ids get increasing orders in visiting order |
| RoomUI.AssignOrdersKeepValid | pkg/gomato/room_ui.go:137-144 | orders stay distinct, positive and below the counter |
| RoomUI.NumberNewId | pkg/gomato/room_ui.go:139-142 | giving a new id the counter and then advancing it keeps orders valid |
| RoomUI.InsertByJoinOrder | pkg/gomato/room_ui.go:157-159 | inserting adds exactly the one row |
| RoomUI.InsertKeepsSorted | pkg/gomato/room_ui.go:157-159 | inserting into a sorted list keeps it sorted |
| RoomUI.InsertKeepsLowerBound | pkg/gomato/room_ui.go:157-159 | a lower bound on every order survives an insert |
| RoomUI.SortByJoinOrder | pkg/gomato/room_ui.go:157-159 | the rows are sorted by join order and are a permutation of the input |
| RoomUI.LastSelf | pkg/gomato/room_ui.go:162-176 | the last row that is this node, or none iff there is no such row |
| RoomUI.MembersOf | pkg/gomato/room_ui.go:129 | the room's members, or none outside a room |
| RoomUI.VisitedIds | pkg/gomato/room_ui.go:137-144 | the ids of the members in visiting order |
| RoomUI.Rows | pkg/gomato/room_ui.go:146-154 | one row per visited member, carrying its join order and whether it is this node |
| RoomUI.MemberList | pkg/gomato/room_ui.go:128-160 | orders are assigned to every member, and the rows are sorted and are a permutation of one row per member |
| RoomUI.UpdateMemberList | pkg/gomato/room_ui.go:128-177 | existing orders are kept and the counter never goes back; rows are sorted; the selection moves to the last self row when there is one |
| RoomUI.MemberListKeys | pkg/gomato/room_ui.go:137-144 | after assignment, the orders cover exactly the recorded ids plus the members' ids |
| RoomUI.MemberListKeepsOrdersValid | pkg/gomato/room_ui.go:137-144 | the list update keeps orders valid |
| RoomUI.VisitedIdSet | pkg/gomato/room_ui.go:137-144 | the visited ids are exactly the members' ids |
| RoomUI.MemberListLength | pkg/gomato/room_ui.go:128-160 | one row per member |
| RoomUI.MemberListRowFacts | pkg/gomato/room_ui.go:137-154 | each row holds a member of the room, its recorded order, and the self flag iff it is this node |
| RoomUI.MemberListCoversMembers | pkg/gomato/room_ui.go:128-160 | every member appears in some row |
| RoomUI.MemberListStrictlyOrdered | pkg/gomato/room_ui.go:128-160 | with the map keyed by id, no two rows share a join order |
| RoomUI.CleanupLeftMembers | pkg/gomato/room_ui.go:180-195 | only recorded ids that are still members keep their orders, unchanged; validity is kept |
| RoomUI.Refresh | pkg/gomato/room_ui.go:201-220 | the list is rebuilt and sorted, and orders are kept only for current members |
| RoomUI.RefreshTracksMembers | pkg/gomato/room_ui.go:128-220 | after a refresh the orders cover exactly the current members, and rows are strictly ordered |
| RoomUI.HandleJoinRoom | pkg/gomato/room_ui.go:223-237 | an empty key is ignored; otherwise the manager joins, and on success the panel shows the room with fresh orders |
| RoomUI.HandleLeaveRoom | pkg/gomato/room_ui.go:240-247 | the manager leaves (by the corrected `LeaveRoom`, see "Findings"), the panel hides, orders reset, and no member map remains |
| RoomUI.LeaveAfterJoinMatchesCode | pkg/gomato/room_ui.go:223-247 | after a successful join, leaving from the panel gives what the code's own `LeaveRoom` gives |
| RoomUI.IsInRoom | pkg/gomato/room_ui.go:371-373 | in a room iff the room is shown |
| RoomUI.ShowInput | pkg/gomato/room_ui.go:376-380 | only the panel state changes, to the key prompt |
| RoomUI.Hide | pkg/gomato/room_ui.go:383-386 | only the panel state changes, to hidden |
| RoomUI.TrimSpace | pkg/gomato/room_ui.go:267-268 | the input is its leading spaces, then the result, then only spaces; the result has no space at either end, and is empty iff the input is all spaces |
| RoomUI.TrimSpaceOfPadded | pkg/gomato/room_ui.go:267-268 | any spaces around a text with no space at either end are exactly what is removed |
| RoomUI.TrimSpaceIsIdempotent | pkg/gomato/room_ui.go:267-268 | trimming twice is trimming once |
| RoomUI.HandleKeyPress | pkg/gomato/room_ui.go:250-291 | hidden ignores keys; Enter on a non-blank key joins it trimmed; esc closes the prompt; in a room the leave binding leaves; a join never carries an empty key |
| RoomUI.DerivedState | pkg/gomato/room_ui.go:390-399 | work iff running a work phase, rest iff running a rest, idle iff stopped |
| RoomUI.CreateMemberFromApp | pkg/gomato/room_ui.go:389-422 | the member carries the node id, default name, clock, derived state and timer, and the current task's title when there is one |
| RoomUI.BroadcastState | pkg/gomato/room_ui.go:425-432 | nothing happens outside a room; in a room the member built from the app is broadcast |
| RoomUI.BroadcastMemberIsValid | pkg/gomato/room_ui.go:389-432 | the broadcast member always makes a valid state update |
| RoomUI.BroadcastStateMatchesTimer | pkg/gomato/room_ui.go:389-422 | the broadcast state agrees with the timer, and the timer text is empty iff the member is idle |

## Left out

- Network and I/O: libp2p hosts, mDNS, dialling, gossip pub-sub and byte-level JSON text are not modelled. The transport's answers are parameters, and messages are JSON value trees. The same goes for settings and task files (`Save`, `Load`, `LoadSettings`), desktop notifications and logging.
- Concurrency: goroutines, mutexes, tickers, context cancellation and the grace delay before the Join announcement are not modelled. Each loop is one call of its body.
- Rendering: lipgloss styles, the `View` functions other than `TimeModel.View`, and the bubbles widgets are not modelled. Typing characters into text inputs is also left out. Widgets are reduced to their values and focus flags.
- `RoomUI.HandleKeyPress`: the leave-room key binding (`RoomKeyMap`) is not part of this model, so whether a key is that binding is a parameter.
- `TaskManager`: tasks are values, not shared `*Task` pointers. The aliasing between slices returned by `GetRecentTasks` and `GetIncompleteTasks` and the manager's own list is not modelled.
- `TaskConfig.SetWork`: `time.Duration` is a 64-bit nanosecond count, modelled as `Int64` with no arithmetic on it.
- `Pomodoro.WorkPhaseEnds`: the statement assumes the cycle count and the settings fit in 64 bits. `HandleTick` itself wraps `CurrentCycleCount+1` and `int(Cycle)` explicitly.
- `Pomodoro.HandleTick`: a phase change returns before the broadcast at pkg/gomato/time.go:100-103, so the model does not broadcast on phase changes either. The branch of pkg/gomato/time.go:105-109 that returns no tick cannot be reached once time remains, so it is not modelled separately.
- `SettingsScreen.Submit`: saving the settings to disk is I/O and is left out. Only the in-memory update is modelled.
- `Discovery.GetPeers`, `Discovery.GetPeerInfo`, `RoomManager.GetMembers`: the Go code returns maps and entries that share `*PeerInfo` and `*Member` pointers with the service, so a later update through the service is visible to the caller. The model returns values, so it does not model that sharing.
- `Codec.DecodeMessage`: three behaviours of `encoding/json` are not modelled. Object keys are matched to struct fields exactly, while the decoder also accepts a case-insensitive match. A repeated key whose value is an object is read from its last occurrence, while the decoder merges the occurrences into one struct. Invalid UTF-8 in strings, which the decoder replaces with U+FFFD, cannot arise, because strings are sequences of characters.
- `RoomUI.HandleLeaveRoom`: pkg/gomato/room_ui.go:240-247 calls the as-written `LeaveRoom`. The model uses the corrected `RoomManager.LeaveRoom` (see "Findings"), so where the code would panic (a room but no topic) the model leaves cleanly. `RoomUI.LeaveAfterJoinMatchesCode` shows that the two agree after a successful join.
- `TaskList`: the model's `TimeModel` has an `isWorkSession` flag that pkg/task/task.go:21-25 does not declare. pkg/gomato reads and sets `task.TimeModel.IsWorkSession` (pkg/gomato/app.go:75, pkg/gomato/tasklist.go:46, pkg/gomato/time.go:31), so the model uses one type with the union of the fields. Nothing in `TaskList` reads or changes the flag, and it is not persisted.
- `RoomManager.BroadcastState`: the Go function takes a `*Member`. Given nil, it publishes `{"type":"state_update"}`; if that publish succeeds, it then panics on `member.ID` (pkg/p2p/room.go:270). The model takes a member value, so that path is not modelled. The only caller (pkg/gomato/room_ui.go:430-431) always passes a member it has just built.
- `Discovery`: `HandlePeerFound` on the node's own id and `Start`/`Stop` are not modelled; they belong to the mDNS service.

## Findings

| source | as written | input that shows it | evidently intended | confidence | as-written member | corrected member |
|---|---|---|---|---|---|---|
| pkg/p2p/room.go:80-107 | `LeaveRoom` checks only `rm.room == nil` and then calls `broadcastLeave`, which publishes on `rm.topic` without a nil check (pkg/p2p/room.go:220) | a fresh manager from `NewRoomManager`, whose room is non-nil (pkg/p2p/room.go:31) and whose topic is nil, or a manager whose topic join failed | publish the Leave only when a topic exists, as the cleanup code below it already checks | medium, not executed | RoomManager.LeaveRoomAsWritten, RoomManager.LeaveRoomOnFreshManagerPanics | RoomManager.LeaveRoom |
