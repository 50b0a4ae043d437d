/** `json.Marshal` and `json.Unmarshal` of the protocol types, following the
    struct tags in pkg/p2p/types.go: field names, field order and the
    `omitempty` options on `Message.Member` and `Message.RoomKey`. */
module Codec {
  import opened Wrappers
  import opened Numeric
  import opened Json
  import opened P2PTypes

  function EncodeTimer(t: TimerInfo): Value {
    Object([
      Field("duration", Number(t.duration)),
      Field("remaining", Number(t.remaining)),
      Field("isRunning", Bool(t.isRunning)),
      Field("isWork", Bool(t.isWork))
    ])
  }

  function EncodeMember(m: Member): Value {
    Object([
      Field("id", Str(m.id)),
      Field("name", Str(m.name)),
      Field("state", Str(StateWire(m.state))),
      Field("timer", EncodeTimer(m.timer)),
      Field("taskName", Str(m.taskName)),
      Field("updatedAt", Number(m.updatedAt))
    ])
  }

  /** `json.Marshal(msg)`: the member is left out when nil and the room key
      when empty. */
  function EncodeMessage(msg: Message): (v: Value)
    ensures v.Object?
    ensures Get(v.fields, "type") == Some(Str(TypeWire(msg.msgType)))
    ensures Get(v.fields, "member").Some? <==> msg.member.Some?
    ensures Get(v.fields, "roomKey").Some? <==> msg.roomKey != ""
  {
    var typeField := [Field("type", Str(TypeWire(msg.msgType)))];
    var memberField := if msg.member.Some? then [Field("member", EncodeMember(msg.member.value))] else [];
    var keyField := if msg.roomKey != "" then [Field("roomKey", Str(msg.roomKey))] else [];
    var fs := typeField + memberField + keyField;
    GetLastOccurrence(fs, "type", 0);
    Object(fs)
  }

  function DecodeTimer(v: Option<Value>): (r: Result<TimerInfo, string>)
    ensures (v.None? || v == Some(Null)) ==> r == Success(ZeroTimer)
  {
    match v
    case None => Success(ZeroTimer)
    case Some(Null) => Success(ZeroTimer)
    case Some(Object(fs)) =>
      var duration :- AsInt64(Get(fs, "duration"), "duration");
      var remaining :- AsInt64(Get(fs, "remaining"), "remaining");
      var isRunning :- AsBool(Get(fs, "isRunning"), "isRunning");
      var isWork :- AsBool(Get(fs, "isWork"), "isWork");
      Success(TimerInfo(duration, remaining, isRunning, isWork))
    case Some(_) => Failure("cannot unmarshal into TimerInfo")
  }

  function DecodeMemberFields(fs: seq<Field>): Result<Member, string> {
    var id :- AsString(Get(fs, "id"), "id");
    var name :- AsString(Get(fs, "name"), "name");
    var state :- AsString(Get(fs, "state"), "state");
    var timer :- DecodeTimer(Get(fs, "timer"));
    var taskName :- AsString(Get(fs, "taskName"), "taskName");
    var updatedAt :- AsInt64(Get(fs, "updatedAt"), "updatedAt");
    Success(Member(id, name, StateFromWire(state), timer, taskName, updatedAt))
  }

  /** Decoding into a `*Member`: absent or `null` gives nil. */
  function DecodeMember(v: Option<Value>): (r: Result<Option<Member>, string>)
    ensures (v.None? || v == Some(Null)) ==> r == Success(None)
  {
    match v
    case None => Success(None)
    case Some(Null) => Success(None)
    case Some(Object(fs)) =>
      var m :- DecodeMemberFields(fs);
      Success(Some(m))
    case Some(_) => Failure("cannot unmarshal into Member")
  }

  /** `json.Unmarshal(data, &msg)` into a zero `Message`: a top-level `null`
      leaves the zero message, a non-object is a type error, and fields that
      are absent keep their zero values. No validation happens here. */
  function DecodeMessage(v: Value): (r: Result<Message, string>)
    ensures v == Null ==> r == Success(Message(TypeFromWire(""), None, ""))
    ensures !v.Null? && !v.Object? ==> r.Failure?
  {
    match v
    case Null => Success(Message(TypeFromWire(""), None, ""))
    case Object(fs) =>
      var t :- AsString(Get(fs, "type"), "type");
      var member :- DecodeMember(Get(fs, "member"));
      var key :- AsString(Get(fs, "roomKey"), "roomKey");
      Success(Message(TypeFromWire(t), member, key))
    case _ => Failure("cannot unmarshal into Message")
  }

  lemma TimerRoundTrip(t: TimerInfo)
    ensures DecodeTimer(Some(EncodeTimer(t))) == Success(t)
  {
    var fs := EncodeTimer(t).fields;
    GetLastOccurrence(fs, "duration", 0);
    GetLastOccurrence(fs, "remaining", 1);
    GetLastOccurrence(fs, "isRunning", 2);
    GetLastOccurrence(fs, "isWork", 3);
    assert AsInt64(Get(fs, "duration"), "duration") == Success(t.duration);
    assert AsInt64(Get(fs, "remaining"), "remaining") == Success(t.remaining);
    assert AsBool(Get(fs, "isRunning"), "isRunning") == Success(t.isRunning);
    assert AsBool(Get(fs, "isWork"), "isWork") == Success(t.isWork);
  }

  /** Every field of an encoded member reads back as the value written. */
  lemma MemberFieldsReadBack(m: Member)
    ensures var fs := EncodeMember(m).fields;
            && Get(fs, "id") == Some(Str(m.id))
            && Get(fs, "name") == Some(Str(m.name))
            && Get(fs, "state") == Some(Str(StateWire(m.state)))
            && Get(fs, "timer") == Some(EncodeTimer(m.timer))
            && Get(fs, "taskName") == Some(Str(m.taskName))
            && Get(fs, "updatedAt") == Some(Number(m.updatedAt))
  {
    var fs := EncodeMember(m).fields;
    GetLastOccurrence(fs, "id", 0);
    GetLastOccurrence(fs, "name", 1);
    GetLastOccurrence(fs, "state", 2);
    GetLastOccurrence(fs, "timer", 3);
    GetLastOccurrence(fs, "taskName", 4);
    GetLastOccurrence(fs, "updatedAt", 5);
  }

  lemma MemberRoundTrip(m: Member)
    ensures DecodeMember(Some(EncodeMember(m))) == Success(Some(m))
  {
    MemberFieldsReadBack(m);
    TimerRoundTrip(m.timer);
    StateWireRoundTrip(m.state);
    DecodeMemberFieldsFrom(EncodeMember(m).fields, m);
  }

  /** Fields holding a member's encoded values decode to that member. */
  lemma DecodeMemberFieldsFrom(fs: seq<Field>, m: Member)
    requires Get(fs, "id") == Some(Str(m.id))
    requires Get(fs, "name") == Some(Str(m.name))
    requires Get(fs, "state") == Some(Str(StateWire(m.state))) && StateFromWire(StateWire(m.state)) == m.state
    requires DecodeTimer(Get(fs, "timer")) == Success(m.timer)
    requires Get(fs, "taskName") == Some(Str(m.taskName))
    requires Get(fs, "updatedAt") == Some(Number(m.updatedAt))
    ensures DecodeMemberFields(fs) == Success(m)
  {
  }

  /** The member field of an encoded message decodes to the member. */
  lemma MessageMemberReadsBack(msg: Message)
    ensures DecodeMember(Get(EncodeMessage(msg).fields, "member")) == Success(msg.member)
  {
    var fs := EncodeMessage(msg).fields;
    if msg.member.Some? {
      MemberRoundTrip(msg.member.value);
      GetLastOccurrence(fs, "member", 1);
    }
  }

  /** The room-key field of an encoded message decodes to the key. */
  lemma MessageKeyReadsBack(msg: Message)
    ensures AsString(Get(EncodeMessage(msg).fields, "roomKey"), "roomKey") == Success(msg.roomKey)
  {
    var fs := EncodeMessage(msg).fields;
    if msg.roomKey != "" {
      GetLastOccurrence(fs, "roomKey", |fs| - 1);
    }
  }

  /** Every message survives encoding and decoding unchanged, whether or not
      it is valid: `omitempty` drops only values that decode back as zero. */
  lemma MessageRoundTrip(msg: Message)
    ensures DecodeMessage(EncodeMessage(msg)) == Success(msg)
  {
    var fs := EncodeMessage(msg).fields;
    TypeWireRoundTrip(msg.msgType);
    assert AsString(Get(fs, "type"), "type") == Success(TypeWire(msg.msgType));
    MessageMemberReadsBack(msg);
    MessageKeyReadsBack(msg);
  }
}
