/** Message validation, serialization and construction (pkg/p2p/message.go).
    A Go `*Message` that may be nil is an `Option<Message>`. */
module Messages {
  import opened Wrappers
  import opened Numeric
  import Json
  import opened P2PTypes
  import opened Codec

  /** The acceptance rule, stated flat: a known kind, a member with an id,
      and, for a state update only, a member with a name. */
  predicate IsValid(msg: Option<Message>) {
    && msg.Some?
    && msg.value.msgType in {StateUpdate, Join, Leave}
    && msg.value.member.Some?
    && msg.value.member.value.id != ""
    && (msg.value.msgType == StateUpdate ==> msg.value.member.value.name != "")
  }

  /** `ValidateMessage`: `Pass` is a nil error. */
  function Validate(msg: Option<Message>): (r: Outcome<string>)
    ensures r.Pass? <==> IsValid(msg)
    ensures msg.None? ==> r == Fail("message is nil")
    ensures msg.Some? && msg.value.msgType.OtherType? ==>
              r == Fail("unknown message type: " + msg.value.msgType.wire)
    ensures (msg.Some? && msg.value.msgType in {StateUpdate, Join, Leave} && msg.value.member.Some?
             && msg.value.member.value.id == "") ==> r == Fail("member ID cannot be empty")
  {
    match msg
    case None => Fail("message is nil")
    case Some(m) =>
      match m.msgType
      case StateUpdate =>
        if m.member.None? then Fail("state update message must contain member")
        else if m.member.value.id == "" then Fail("member ID cannot be empty")
        else if m.member.value.name == "" then Fail("member name cannot be empty")
        else Pass
      case Join =>
        if m.member.None? then Fail("join message must contain member")
        else if m.member.value.id == "" then Fail("member ID cannot be empty")
        else Pass
      case Leave =>
        if m.member.None? then Fail("leave message must contain member")
        else if m.member.value.id == "" then Fail("member ID cannot be empty")
        else Pass
      case OtherType(w) => Fail("unknown message type: " + w)
  }

  /** `SerializeMessage`: an error and no data exactly when validation
      fails; otherwise the JSON encoding. `json.Marshal` cannot fail on these
      types, so that error path is absent. */
  function Serialize(msg: Option<Message>): (r: Result<Json.Value, string>)
    ensures r.Failure? <==> !IsValid(msg)
    ensures r.Failure? ==> Validate(msg).Fail? && r.error == "invalid message: " + Validate(msg).error
    ensures r.Success? ==> DecodeMessage(r.value) == Success(msg.value)
  {
    match Validate(msg)
    case Fail(e) => Failure("invalid message: " + e)
    case Pass =>
      MessageRoundTrip(msg.value);
      Success(EncodeMessage(msg.value))
  }

  /** `DeserializeMessage`: decode, then validate; only a valid message is
      returned. */
  function Deserialize(data: Json.Value): (r: Result<Message, string>)
    ensures r.Success? ==> IsValid(Some(r.value)) && DecodeMessage(data) == Success(r.value)
    ensures DecodeMessage(data).Success? && IsValid(Some(DecodeMessage(data).value)) ==> r.Success?
  {
    match DecodeMessage(data)
    case Failure(e) => Failure("failed to deserialize message: " + e)
    case Success(m) =>
      match Validate(Some(m))
      case Fail(e) => Failure("invalid deserialized message: " + e)
      case Pass => Success(m)
  }

  /** Every valid message survives `Serialize` then `Deserialize`. */
  lemma SerializeRoundTrip(msg: Message)
    requires IsValid(Some(msg))
    ensures Serialize(Some(msg)).Success?
    ensures Deserialize(Serialize(Some(msg)).value) == Success(msg)
  {
    MessageRoundTrip(msg);
  }

  function CreateStateUpdateMessage(member: Option<Member>): (msg: Message)
    ensures msg.msgType == StateUpdate && msg.member == member
    ensures Json.Get(EncodeMessage(msg).fields, "roomKey").None?
  {
    Message(StateUpdate, member, "")
  }

  function CreateJoinMessage(member: Option<Member>, roomKey: string): (msg: Message)
    ensures msg.msgType == Join && msg.member == member && msg.roomKey == roomKey
  {
    Message(Join, member, roomKey)
  }

  function CreateLeaveMessage(member: Option<Member>, roomKey: string): (msg: Message)
    ensures msg.msgType == Leave && msg.member == member && msg.roomKey == roomKey
  {
    Message(Leave, member, roomKey)
  }

  /** A state update built by the helper validates exactly when its member
      has both an id and a name; a join or leave needs only the id. */
  lemma CreatedMessagesValidity(member: Member, roomKey: string)
    ensures IsValid(Some(CreateStateUpdateMessage(Some(member)))) <==> member.id != "" && member.name != ""
    ensures IsValid(Some(CreateJoinMessage(Some(member), roomKey))) <==> member.id != ""
    ensures IsValid(Some(CreateLeaveMessage(Some(member), roomKey))) <==> member.id != ""
    ensures !IsValid(Some(CreateJoinMessage(None, roomKey)))
  {
  }

  /** `CreateMemberFromNode`; `now` is the wall clock in Unix seconds. */
  function CreateMemberFromNode(nodeId: string, name: string, state: MemberState, timer: TimerInfo,
                                taskName: string, now: Int64): (m: Member)
    ensures m.id == nodeId && m.name == name && m.state == state
    ensures m.timer == timer && m.taskName == taskName && m.updatedAt == now
  {
    Member(nodeId, name, state, timer, taskName, now)
  }

  /** `IsMessageFromSelf`: false for a nil message or nil member. */
  function IsMessageFromSelf(msg: Option<Message>, selfId: string): (r: bool)
    ensures msg.None? ==> !r
    ensures msg.Some? && msg.value.member.None? ==> !r
    ensures msg.Some? && msg.value.member.Some? ==> (r <==> msg.value.member.value.id == selfId)
  {
    msg.Some? && msg.value.member.Some? && msg.value.member.value.id == selfId
  }
}
