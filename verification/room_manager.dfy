/** The room manager (pkg/p2p/room.go) as a pure state machine. The pub-sub
    transport is modelled by its answers (`Transport`) and by the manager's
    outbox: every message the node publishes is appended there as its JSON
    value. The receive loop is `Receive`, one delivered message at a time;
    the node's own messages come back through it like anyone else's. */
module RoomManager {
  import opened Wrappers
  import opened Numeric
  import Json
  import opened P2PTypes
  import opened Codec
  import opened Messages

  const TopicPrefix := "gomato-room-"
  /** The display name the manager announces itself with. */
  const DefaultName := "用户"

  /** What the transport answers to the calls of one operation: joining the
      topic, subscribing to it and publishing on it. */
  datatype Transport = Transport(join: Outcome<string>, subscribe: Outcome<string>, publish: Outcome<string>)

  /** `RoomManager`. A `*pubsub.Topic` or `*pubsub.Subscription` handle is
      named by its topic string; `None` is a nil handle. */
  datatype Manager = Manager(
    selfId: string,
    room: Option<Room>,
    topic: Option<string>,
    sub: Option<string>,
    outbox: seq<Json.Value>)

  function TopicName(key: string): string {
    TopicPrefix + key
  }

  /** A member map is keyed by member id. */
  predicate KeyedById(members: map<string, Member>) {
    forall k :: k in members ==> members[k].id == k
  }

  /** `NewRoomManager`: the room starts non-nil and empty, with no topic and
      no subscription. */
  function NewManager(selfId: string): (mgr: Manager)
    ensures GetMembers(mgr) == Some(map[])
    ensures mgr.topic.None? && mgr.sub.None? && mgr.outbox == []
  {
    Manager(selfId, Some(Room("", map[], "")), None, None, [])
  }

  /** The member `broadcastJoin` and `broadcastLeave` describe this node
      with; `now` is the wall clock in Unix seconds. */
  function SelfAnnouncement(mgr: Manager, now: Int64): Member {
    Member(mgr.selfId, DefaultName, Idle, ZeroTimer, "", now)
  }

  /** Appends a message to the outbox when the transport accepts it. A
      failed publish is only logged by the callers that use this. */
  function Publish(mgr: Manager, msg: Message, result: Outcome<string>): (r: Manager)
    ensures result.Pass? ==> r.outbox == mgr.outbox + [EncodeMessage(msg)]
    ensures result.Fail? ==> r == mgr
    ensures r.selfId == mgr.selfId && r.room == mgr.room && r.topic == mgr.topic && r.sub == mgr.sub
  {
    if result.Pass? then mgr.(outbox := mgr.outbox + [EncodeMessage(msg)]) else mgr
  }

  /** `JoinRoom`. The room is replaced before the transport is asked
      anything, so it is replaced even when joining fails and even when the
      key is the one already joined; the previous subscription is not
      cancelled. */
  function JoinRoom(mgr: Manager, key: string, t: Transport, now: Int64): (r: (Manager, Outcome<string>))
    ensures r.0.room == Some(Room(key, map[], TopicPrefix + key))
    ensures r.0.selfId == mgr.selfId
    ensures r.1.Pass? <==> t.join.Pass? && t.subscribe.Pass?
    ensures t.join.Fail? ==> r.0.topic == mgr.topic && r.0.sub == mgr.sub && r.0.outbox == mgr.outbox
    ensures t.join.Pass? ==> r.0.topic == Some(TopicPrefix + key)
    ensures r.1.Pass? ==> r.0.sub == Some(TopicPrefix + key)
    ensures r.1.Fail? ==> r.0.outbox == mgr.outbox
    ensures r.1.Pass? && t.publish.Pass? ==>
              r.0.outbox == mgr.outbox + [EncodeMessage(Message(Join, Some(SelfAnnouncement(mgr, now)), ""))]
    ensures r.1.Pass? && t.publish.Fail? ==> r.0.outbox == mgr.outbox
  {
    var newRoom := Room(key, map[], TopicName(key));
    var m1 := mgr.(room := Some(newRoom));
    if t.join.Fail? then (m1, Fail("failed to join room topic: " + t.join.error))
    else
      var m2 := m1.(topic := Some(newRoom.topic));
      if t.subscribe.Fail? then (m2, Fail("failed to subscribe to room topic: " + t.subscribe.error))
      else
        var m3 := m2.(sub := Some(newRoom.topic));
        (Publish(m3, Message(Join, Some(SelfAnnouncement(mgr, now)), ""), t.publish), Pass)
  }

  /** `LeaveRoom` exactly as written: a non-nil room with a nil topic (a
      fresh manager, or one whose topic join failed) reaches
      `rm.topic.Publish` on a nil topic, which dereferences nil. `None`
      stands for that panic. */
  function LeaveRoomAsWritten(mgr: Manager, publish: Outcome<string>, now: Int64): (r: Option<(Manager, Outcome<string>)>)
    ensures r.None? <==> mgr.room.Some? && mgr.topic.None?
    ensures mgr.room.None? ==> r == Some((mgr, Pass))
  {
    if mgr.room.None? then Some((mgr, Pass))
    else if mgr.topic.None? then None
    else
      var m1 := Publish(mgr, Message(Leave, Some(SelfAnnouncement(mgr, now)), ""), publish);
      Some((m1.(sub := None, topic := None, room := None), Pass))
  }

  /** A freshly built manager makes the as-written `LeaveRoom` panic. */
  lemma LeaveRoomOnFreshManagerPanics(selfId: string, publish: Outcome<string>, now: Int64)
    ensures LeaveRoomAsWritten(NewManager(selfId), publish, now).None?
  {
  }

  /** `LeaveRoom` with the Leave broadcast guarded by the same nil-topic check
      the cleanup code below it already makes. It never fails; when there is
      a room it publishes a Leave for this node (if a topic exists) and then
      clears the subscription, the topic and the room. `now` only stamps the
      Leave message. */
  function LeaveRoom(mgr: Manager, publish: Outcome<string>, now: Int64): (r: (Manager, Outcome<string>))
    ensures r.1 == Pass
    ensures mgr.room.None? ==> r.0 == mgr
    ensures mgr.room.Some? ==> r.0.room.None? && r.0.topic.None? && r.0.sub.None?
    ensures mgr.room.Some? && mgr.topic.Some? && publish.Pass? ==>
              r.0.outbox == mgr.outbox + [EncodeMessage(Message(Leave, Some(SelfAnnouncement(mgr, now)), ""))]
    ensures !(mgr.room.Some? && mgr.topic.Some? && publish.Pass?) ==> r.0.outbox == mgr.outbox
    ensures r.0.selfId == mgr.selfId
  {
    if mgr.room.None? then (mgr, Pass)
    else
      var m1 := if mgr.topic.Some? then Publish(mgr, Message(Leave, Some(SelfAnnouncement(mgr, now)), ""), publish) else mgr;
      (m1.(sub := None, topic := None, room := None), Pass)
  }

  /** Wherever the as-written `LeaveRoom` does not panic, the corrected one
      does the same thing. */
  lemma LeaveRoomAgreesWhenTopicPresent(mgr: Manager, publish: Outcome<string>, now: Int64)
    requires LeaveRoomAsWritten(mgr, publish, now).Some?
    ensures LeaveRoomAsWritten(mgr, publish, now).value == LeaveRoom(mgr, publish, now)
  {
  }

  /** The member-map update of `handleMessage`: a state update overwrites, a
      join inserts only an absent id, a leave deletes; a message without a
      member, or of another kind, changes nothing. */
  function ApplyToMembers(members: map<string, Member>, msg: Message): (r: map<string, Member>)
    ensures msg.member.None? || msg.msgType.OtherType? ==> r == members
    ensures msg.member.Some? ==>
              var id := msg.member.value.id;
              && (forall k :: k != id ==> (k in r <==> k in members))
              && (forall k :: k != id && k in r ==> r[k] == members[k])
    ensures msg.member.Some? && msg.msgType == StateUpdate ==>
              var id := msg.member.value.id;
              id in r && r[id] == msg.member.value
    ensures msg.member.Some? && msg.msgType == Join ==>
              var id := msg.member.value.id;
              id in r && r[id] == (if id in members then members[id] else msg.member.value)
    ensures msg.member.Some? && msg.msgType == Leave ==> msg.member.value.id !in r
    ensures KeyedById(members) ==> KeyedById(r)
  {
    match msg.member
    case None => members
    case Some(m) =>
      match msg.msgType
      case StateUpdate => members[m.id := m]
      case Join => if m.id in members then members else members[m.id := m]
      case Leave => members - {m.id}
      case OtherType(_) => members
  }

  /** `handleMessage`: no room, no change. */
  function HandleMessage(mgr: Manager, msg: Message): (r: Manager)
    ensures mgr.room.None? ==> r == mgr
    ensures mgr.room.Some? ==> r == mgr.(room := Some(mgr.room.value.(members := ApplyToMembers(mgr.room.value.members, msg))))
  {
    match mgr.room
    case None => mgr
    case Some(room) => mgr.(room := Some(room.(members := ApplyToMembers(room.members, msg))))
  }

  /** One turn of `handleMessages`: with no subscription the loop has
      stopped; data that does not decode is dropped; anything that decodes is
      applied with NO validation. */
  function Receive(mgr: Manager, data: Json.Value): (r: Manager)
    ensures mgr.sub.None? ==> r == mgr
    ensures mgr.sub.Some? && DecodeMessage(data).Failure? ==> r == mgr
    ensures mgr.sub.Some? && DecodeMessage(data).Success? ==> r == HandleMessage(mgr, DecodeMessage(data).value)
  {
    if mgr.sub.None? then mgr
    else
      match DecodeMessage(data)
      case Failure(_) => mgr
      case Success(msg) => HandleMessage(mgr, msg)
  }

  /** `GetMembers`: absent when not in a room, else the member map (a value,
      hence a copy). */
  function GetMembers(mgr: Manager): (r: Option<map<string, Member>>)
    ensures r.None? <==> mgr.room.None?
    ensures r.Some? ==> r.value == mgr.room.value.members
  {
    match mgr.room
    case None => None
    case Some(room) => Some(room.members)
  }

  /** `BroadcastState`: "not in a room" without publishing when the room or
      the topic is nil; otherwise the state update is marshalled directly,
      WITHOUT `SerializeMessage`'s validation, and a publish error is
      returned. */
  function BroadcastState(mgr: Manager, member: Member, publish: Outcome<string>): (r: (Manager, Outcome<string>))
    ensures mgr.room.None? || mgr.topic.None? ==> r == (mgr, Fail("not in a room"))
    ensures mgr.room.Some? && mgr.topic.Some? ==> r.1 == publish
    ensures mgr.room.Some? && mgr.topic.Some? && publish.Pass? ==>
              r.0.outbox == mgr.outbox + [EncodeMessage(Message(StateUpdate, Some(member), ""))]
    ensures r.0.room == mgr.room && r.0.topic == mgr.topic && r.0.sub == mgr.sub && r.0.selfId == mgr.selfId
    ensures r.1.Fail? ==> r.0.outbox == mgr.outbox
  {
    if mgr.room.None? || mgr.topic.None? then (mgr, Fail("not in a room"))
    else (Publish(mgr, Message(StateUpdate, Some(member), ""), publish), publish)
  }

  // ---------------------------------------------------------------------
  // Properties of the protocol
  // ---------------------------------------------------------------------

  /** Receiving a message this node published is the same as handling the
      message itself: the encoding loses nothing on the way round. */
  lemma LoopbackIsHandle(mgr: Manager, msg: Message)
    requires mgr.sub.Some?
    ensures Receive(mgr, EncodeMessage(msg)) == HandleMessage(mgr, msg)
  {
    MessageRoundTrip(msg);
  }

  /** After a successful join whose announcement was published, the node's
      own Join, fed back through the subscription, puts this node in the
      member list as an idle member named "用户" with a zero timer. */
  lemma JoinThenOwnAnnouncement(mgr: Manager, key: string, t: Transport, now: Int64)
    requires t.join.Pass? && t.subscribe.Pass? && t.publish.Pass?
    ensures var joined := JoinRoom(mgr, key, t, now).0;
            && |joined.outbox| == |mgr.outbox| + 1
            && var after := Receive(joined, joined.outbox[|joined.outbox| - 1]);
            && GetMembers(after) == Some(map[mgr.selfId := SelfAnnouncement(mgr, now)])
  {
    var joined := JoinRoom(mgr, key, t, now).0;
    var msg := Message(Join, Some(SelfAnnouncement(mgr, now)), "");
    assert joined.outbox[|joined.outbox| - 1] == EncodeMessage(msg);
    LoopbackIsHandle(joined, msg);
    assert map[][mgr.selfId := SelfAnnouncement(mgr, now)] == map[mgr.selfId := SelfAnnouncement(mgr, now)];
  }

  /** Joining and then leaving leaves no member map at all (not an empty
      one). */
  lemma JoinThenLeaveHasNoMembers(mgr: Manager, key: string, t: Transport, publish: Outcome<string>, now: Int64)
    ensures GetMembers(LeaveRoom(JoinRoom(mgr, key, t, now).0, publish, now).0).None?
  {
  }

  /** A second consecutive `LeaveRoom` is a no-op without error. */
  lemma LeaveRoomIdempotent(mgr: Manager, p1: Outcome<string>, p2: Outcome<string>, now: Int64)
    ensures var once := LeaveRoom(mgr, p1, now).0;
            LeaveRoom(once, p2, now) == (once, Pass)
  {
  }

  /** Last write wins: of two state updates for the same id, whatever their
      order of sending, the one applied second is the one kept. */
  lemma StateUpdateLastWriteWins(members: map<string, Member>, first: Member, second: Member)
    requires first.id == second.id
    ensures var r := ApplyToMembers(ApplyToMembers(members, Message(StateUpdate, Some(first), "")),
                                    Message(StateUpdate, Some(second), ""));
            r == members[second.id := second]
  {
  }

  /** A duplicate Join changes nothing: an existing entry is never
      overwritten by a Join. */
  lemma JoinOfKnownIdIsNoOp(members: map<string, Member>, m: Member, key: string)
    requires m.id in members
    ensures ApplyToMembers(members, Message(Join, Some(m), key)) == members
  {
  }

  /** A Leave for an id not in the map leaves the map unchanged. */
  lemma LeaveOfUnknownIdIsNoOp(members: map<string, Member>, m: Member, key: string)
    requires m.id !in members
    ensures ApplyToMembers(members, Message(Leave, Some(m), key)) == members
  {
  }

  /** Messages about different members commute, so replicas that receive
      them in different orders agree. */
  lemma DifferentMembersCommute(members: map<string, Member>, a: Message, b: Message)
    requires a.member.Some? && b.member.Some? && a.member.value.id != b.member.value.id
    ensures ApplyToMembers(ApplyToMembers(members, a), b) == ApplyToMembers(ApplyToMembers(members, b), a)
  {
    var ab := ApplyToMembers(ApplyToMembers(members, a), b);
    var ba := ApplyToMembers(ApplyToMembers(members, b), a);
    forall k
      ensures (k in ab <==> k in ba) && (k in ab ==> ab[k] == ba[k])
    {
      if k == a.member.value.id {
      } else if k == b.member.value.id {
      } else {
      }
    }
    assert ab == ba;
  }

  /** `BroadcastState` does not validate: a member without a name is
      published, `Deserialize` would reject what was published, and yet the
      receive loop, which decodes without validating, applies it. */
  lemma UnvalidatedStateUpdateIsApplied(mgr: Manager, member: Member, publish: Outcome<string>)
    requires mgr.room.Some? && mgr.topic.Some? && mgr.sub.Some? && publish.Pass?
    requires member.id != "" && member.name == ""
    ensures var sent := BroadcastState(mgr, member, publish).0;
            var data := sent.outbox[|sent.outbox| - 1];
            && Deserialize(data).Failure?
            && GetMembers(Receive(sent, data)).Some?
            && member.id in GetMembers(Receive(sent, data)).value
            && GetMembers(Receive(sent, data)).value[member.id] == member
  {
    var msg := Message(StateUpdate, Some(member), "");
    MessageRoundTrip(msg);
    var sent := BroadcastState(mgr, member, publish).0;
    LoopbackIsHandle(sent, msg);
  }
}
