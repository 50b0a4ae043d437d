/** The data model of the room protocol (pkg/p2p/types.go). Go's
    `MemberState` and `MessageType` are named string types: the three (resp.
    three) named constants are the intended values, but any string can arrive
    on the wire, so each is a datatype with a catch-all case that is kept
    distinct from the named ones. */
module P2PTypes {
  import opened Wrappers
  import opened Numeric

  datatype StateTag = Idle | Work | Rest | OtherState(wire: string)

  /** A member's activity state; an `OtherState` never spells a named one. */
  type MemberState = t: StateTag | !t.OtherState? || t.wire !in {"idle", "work", "rest"}
    witness Idle

  function StateWire(s: MemberState): string {
    match s
    case Idle => "idle"
    case Work => "work"
    case Rest => "rest"
    case OtherState(w) => w
  }

  /** Reads a state from its wire string; every string reads as exactly
      one state, and writing it back gives the same string. */
  function StateFromWire(w: string): (s: MemberState)
    ensures StateWire(s) == w
    ensures s == Idle <==> w == "idle"
    ensures s == Work <==> w == "work"
    ensures s == Rest <==> w == "rest"
  {
    if w == "idle" then Idle
    else if w == "work" then Work
    else if w == "rest" then Rest
    else OtherState(w)
  }

  /** Writing a state and reading it back gives the same state, so
      `StateWire` and `StateFromWire` are mutually inverse. */
  lemma StateWireRoundTrip(s: MemberState)
    ensures StateFromWire(StateWire(s)) == s
  {
  }

  /** Distinct states have distinct wire strings. */
  lemma StateWireInjective(s: MemberState, t: MemberState)
    requires StateWire(s) == StateWire(t)
    ensures s == t
  {
    StateWireRoundTrip(s);
    StateWireRoundTrip(t);
  }

  datatype TypeTag = StateUpdate | Join | Leave | OtherType(wire: string)

  /** A message kind; an `OtherType` never spells a named one. */
  type MessageType = t: TypeTag | !t.OtherType? || t.wire !in {"state_update", "join", "leave"}
    witness StateUpdate

  function TypeWire(t: MessageType): string {
    match t
    case StateUpdate => "state_update"
    case Join => "join"
    case Leave => "leave"
    case OtherType(w) => w
  }

  /** Reads a message kind from its wire string. */
  function TypeFromWire(w: string): (t: MessageType)
    ensures TypeWire(t) == w
    ensures t == StateUpdate <==> w == "state_update"
    ensures t == Join <==> w == "join"
    ensures t == Leave <==> w == "leave"
  {
    if w == "state_update" then StateUpdate
    else if w == "join" then Join
    else if w == "leave" then Leave
    else OtherType(w)
  }

  /** Writing a message kind and reading it back gives the same kind. */
  lemma TypeWireRoundTrip(t: MessageType)
    ensures TypeFromWire(TypeWire(t)) == t
  {
  }

  /** Timer snapshot: seconds and two flags, with no constraint between them. */
  datatype TimerInfo = TimerInfo(duration: Int64, remaining: Int64, isRunning: bool, isWork: bool)

  const ZeroTimer := TimerInfo(0, 0, false, false)

  datatype Member = Member(
    id: string,
    name: string,
    state: MemberState,
    timer: TimerInfo,
    taskName: string,
    updatedAt: Int64)

  /** A room: its key, its member map keyed by member id, and its topic. */
  datatype Room = Room(key: string, members: map<string, Member>, topic: string)

  /** The protocol envelope. A Go nil `*Member` is `None`; an empty room key
      stands for an absent one, as `omitempty` makes them the same. */
  datatype Message = Message(msgType: MessageType, member: Option<Member>, roomKey: string)
}
