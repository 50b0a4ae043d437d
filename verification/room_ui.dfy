/** The room panel of the terminal UI (pkg/gomato/room_ui.go): join-order
    bookkeeping for the member list, the state and timer texts, the join and
    leave handlers, and the state broadcast built from the timer. The list
    widget is represented by its items and selected index. */
module RoomUI {
  import opened Wrappers
  import opened Numeric
  import opened P2PTypes
  import TaskList
  import RoomManager
  import Messages

  datatype RoomState = RoomHidden | RoomVisible | RoomInput

  /** A row of the member list. */
  datatype MemberItem = MemberItem(member: Member, joinOrder: int, isSelf: bool)

  datatype RoomUIModel = RoomUIModel(
    state: RoomState,
    roomInput: string,
    manager: RoomManager.Manager,
    joinOrder: map<string, int>,
    nextJoinOrder: int,
    items: seq<MemberItem>,
    selected: int)

  /** What a key press in the panel asks the program loop to deliver next. */
  datatype RoomMsg = JoinRoomMsg(roomKey: string) | LeaveRoomMsg

  function NewRoomUIModel(manager: RoomManager.Manager): (ui: RoomUIModel)
    ensures ui.state == RoomHidden && ui.joinOrder == map[] && ui.nextJoinOrder == 1
    ensures OrdersValid(ui.joinOrder, ui.nextJoinOrder)
  {
    RoomUIModel(RoomHidden, "", manager, map[], 1, [], 0)
  }

  /** Every recorded order is positive and below the next one to hand out,
      and no two members share one. */
  predicate OrdersValid(order: map<string, int>, next: int) {
    && (forall k :: k in order ==> 1 <= order[k] < next)
    && (forall k1, k2 :: k1 in order && k2 in order && k1 != k2 ==> order[k1] != order[k2])
  }

  // ---------------------------------------------------------------------
  // Texts
  // ---------------------------------------------------------------------

  /** `getStateText`. */
  function StateText(state: MemberState): (s: string)
    ensures state == Work <==> s == "工作中"
    ensures state == Rest <==> s == "休息中"
    ensures state == Idle <==> s == "空闲"
    ensures state.OtherState? <==> s == "未知"
  {
    match state
    case Work => "工作中"
    case Rest => "休息中"
    case Idle => "空闲"
    case OtherState(_) => "未知"
  }

  /** `getTimerText`: nothing for a stopped timer, else minutes and seconds. */
  function TimerText(t: TimerInfo): (s: string)
    ensures !t.isRunning <==> s == ""
    ensures t.isRunning ==> s == ClockText(t.remaining)
  {
    if !t.isRunning then "" else
      assert |ClockText(t.remaining)| > 0 by {
        assert |Pad2(TruncDiv(t.remaining, 60))| >= 2;
      }
      ClockText(t.remaining)
  }

  /** The example the source's tests pin down: 125 seconds show as "02:05". */
  lemma TimerTextExample()
    ensures TimerText(TimerInfo(1500, 125, true, true)) == "02:05"
  {
    assert TruncDiv(125, 60) == 2 && TruncRem(125, 60) == 5;
    assert Pad2(2) == "02" && Pad2(5) == "05";
  }

  // ---------------------------------------------------------------------
  // Join order
  // ---------------------------------------------------------------------

  /** The join-order half of `updateMemberList`: ids seen before keep their
      order; each unseen id, in visiting order, takes the next number. */
  function AssignOrders(order: map<string, int>, next: int, ids: seq<string>): (r: (map<string, int>, int))
    ensures forall k :: k in r.0 <==> k in order || k in ids
    ensures forall k :: k in order ==> r.0[k] == order[k]
    ensures forall k :: k in r.0 && k !in order ==> next <= r.0[k] < r.1
    ensures r.1 >= next
    decreases |ids|
  {
    if |ids| == 0 then (order, next)
    else if ids[0] in order then AssignOrders(order, next, ids[1..])
    else AssignOrders(order[ids[0] := next], next + 1, ids[1..])
  }

  /** The first unseen id takes exactly `next`. */
  lemma AssignOrdersFirst(order: map<string, int>, next: int, ids: seq<string>)
    requires |ids| > 0 && ids[0] !in order
    ensures AssignOrders(order, next, ids).0[ids[0]] == next
  {
  }

  /** Unseen ids are numbered in the order they are visited. */
  lemma {:induction false} AssignOrdersIncreasing(order: map<string, int>, next: int, ids: seq<string>, i: int, j: int)
    requires 0 <= i < j < |ids|
    requires ids[i] !in order && ids[j] !in order && ids[i] != ids[j]
    requires forall a :: 0 <= a < i ==> ids[a] != ids[i]
    requires forall a :: 0 <= a < j ==> ids[a] != ids[j]
    ensures AssignOrders(order, next, ids).0[ids[i]] < AssignOrders(order, next, ids).0[ids[j]]
    decreases |ids|
  {
    var tail := ids[1..];
    if i == 0 {
      AssignOrdersFirst(order, next, ids);
      var r := AssignOrders(order[ids[0] := next], next + 1, tail);
      assert ids[j] == tail[j - 1];
      assert ids[j] !in order[ids[0] := next];
      assert r.0[ids[j]] >= next + 1;
    } else {
      assert ids[0] != ids[i] && ids[0] != ids[j];
      var order' := if ids[0] in order then order else order[ids[0] := next];
      var next' := if ids[0] in order then next else next + 1;
      assert ids[i] == tail[i - 1] && ids[j] == tail[j - 1];
      AssignOrdersIncreasing(order', next', tail, i - 1, j - 1);
    }
  }

  /** Numbering keeps recorded orders positive, below the next one and
      pairwise different. */
  lemma {:induction false} AssignOrdersKeepValid(order: map<string, int>, next: int, ids: seq<string>)
    requires OrdersValid(order, next) && next >= 1
    ensures var r := AssignOrders(order, next, ids); OrdersValid(r.0, r.1)
    decreases |ids|
  {
    if |ids| > 0 {
      var order' := if ids[0] in order then order else order[ids[0] := next];
      var next' := if ids[0] in order then next else next + 1;
      if ids[0] !in order {
        NumberNewId(order, next, ids[0]);
      }
      AssignOrdersKeepValid(order', next', ids[1..]);
      assert AssignOrders(order, next, ids) == AssignOrders(order', next', ids[1..]);
    }
  }

  /** Giving a new id the next number keeps the numbering valid. */
  lemma NumberNewId(order: map<string, int>, next: int, id: string)
    requires OrdersValid(order, next) && next >= 1 && id !in order
    ensures OrdersValid(order[id := next], next + 1)
  {
  }

  /** An enumeration of a map's keys: each key exactly once. */
  predicate Enumerates(visit: seq<string>, keys: set<string>) {
    && (forall i :: 0 <= i < |visit| ==> visit[i] in keys)
    && (forall k :: k in keys ==> k in visit)
    && (forall i, j :: 0 <= i < j < |visit| ==> visit[i] != visit[j])
  }

  predicate SortedByJoinOrder(items: seq<MemberItem>) {
    forall i, j :: 0 <= i < j < |items| ==> items[i].joinOrder <= items[j].joinOrder
  }

  function InsertByJoinOrder(x: MemberItem, items: seq<MemberItem>): (r: seq<MemberItem>)
    ensures multiset(r) == multiset(items) + multiset{x}
    decreases |items|
  {
    if |items| == 0 then [x]
    else if x.joinOrder <= items[0].joinOrder then [x] + items
    else
      assert items == [items[0]] + items[1..];
      [items[0]] + InsertByJoinOrder(x, items[1..])
  }

  lemma {:induction false} InsertKeepsSorted(x: MemberItem, items: seq<MemberItem>)
    requires SortedByJoinOrder(items)
    ensures SortedByJoinOrder(InsertByJoinOrder(x, items))
    decreases |items|
  {
    if |items| > 0 && x.joinOrder > items[0].joinOrder {
      InsertKeepsSorted(x, items[1..]);
      InsertKeepsLowerBound(x, items[1..], items[0].joinOrder);
    }
  }

  /** Inserting an item no lower than a bound of the list keeps the bound. */
  lemma {:induction false} InsertKeepsLowerBound(x: MemberItem, items: seq<MemberItem>, low: int)
    requires low <= x.joinOrder
    requires forall k :: 0 <= k < |items| ==> low <= items[k].joinOrder
    ensures forall k :: 0 <= k < |InsertByJoinOrder(x, items)| ==> low <= InsertByJoinOrder(x, items)[k].joinOrder
    decreases |items|
  {
    if |items| > 0 && x.joinOrder > items[0].joinOrder {
      InsertKeepsLowerBound(x, items[1..], low);
    }
  }

  /** The `sort.Slice` call: ascending join order, same items. */
  function SortByJoinOrder(items: seq<MemberItem>): (r: seq<MemberItem>)
    ensures SortedByJoinOrder(r)
    ensures multiset(r) == multiset(items)
    decreases |items|
  {
    if |items| == 0 then []
    else
      assert items == [items[0]] + items[1..];
      var sortedTail := SortByJoinOrder(items[1..]);
      InsertKeepsSorted(items[0], sortedTail);
      InsertByJoinOrder(items[0], sortedTail)
  }

  /** The index the loop over the sorted items leaves in `currentUserIndex`:
      the last item that is the local node. */
  function LastSelf(items: seq<MemberItem>): (r: Option<int>)
    ensures r.None? <==> forall i :: 0 <= i < |items| ==> !items[i].isSelf
    ensures r.Some? ==> 0 <= r.value < |items| && items[r.value].isSelf
    ensures r.Some? ==> forall i :: r.value < i < |items| ==> !items[i].isSelf
    decreases |items|
  {
    if |items| == 0 then None
    else if items[|items| - 1].isSelf then Some(|items| - 1)
    else LastSelf(items[..|items| - 1])
  }

  /** The members the manager reports; a nil map iterates as empty. */
  function MembersOf(mgr: RoomManager.Manager): (r: map<string, Member>)
    ensures RoomManager.GetMembers(mgr).Some? ==> r == RoomManager.GetMembers(mgr).value
    ensures RoomManager.GetMembers(mgr).None? ==> r == map[]
  {
    match RoomManager.GetMembers(mgr)
    case Some(ms) => ms
    case None => map[]
  }

  /** The member ids in visiting order. */
  function VisitedIds(members: map<string, Member>, visit: seq<string>): (ids: seq<string>)
    requires forall i :: 0 <= i < |visit| ==> visit[i] in members
    ensures |ids| == |visit|
    ensures forall i :: 0 <= i < |visit| ==> ids[i] == members[visit[i]].id
  {
    seq(|visit|, i requires 0 <= i < |visit| => members[visit[i]].id)
  }

  /** One row per visited member, before sorting. */
  function Rows(members: map<string, Member>, visit: seq<string>, order: map<string, int>, selfId: string): (rows: seq<MemberItem>)
    requires forall i :: 0 <= i < |visit| ==> visit[i] in members && members[visit[i]].id in order
    ensures |rows| == |visit|
    ensures forall i :: 0 <= i < |visit| ==>
              rows[i] == MemberItem(members[visit[i]], order[members[visit[i]].id], members[visit[i]].id == selfId)
  {
    seq(|visit|, i requires 0 <= i < |visit| =>
          MemberItem(members[visit[i]], order[members[visit[i]].id], members[visit[i]].id == selfId))
  }

  /** The list computed from a member map: the new join-order map and next
      number, and the rows sorted by join order. */
  function MemberList(members: map<string, Member>, visit: seq<string>, order: map<string, int>, next: int,
                      selfId: string): (r: (map<string, int>, int, seq<MemberItem>))
    requires Enumerates(visit, members.Keys)
    ensures (r.0, r.1) == AssignOrders(order, next, VisitedIds(members, visit))
    ensures forall i :: 0 <= i < |visit| ==> members[visit[i]].id in r.0
    ensures SortedByJoinOrder(r.2)
    ensures multiset(r.2) == multiset(Rows(members, visit, r.0, selfId))
  {
    var ids := VisitedIds(members, visit);
    var numbering := AssignOrders(order, next, ids);
    assert forall i :: 0 <= i < |visit| ==> ids[i] in numbering.0;
    (numbering.0, numbering.1, SortByJoinOrder(Rows(members, visit, numbering.0, selfId)))
  }

  /** `updateMemberList`. Go's map iteration order is `visit`, an
      enumeration of the member keys chosen by the caller. Orders are
      assigned by member id; the rows come out sorted by join order, and the
      local node's row, if present, becomes the selected one. */
  function UpdateMemberList(ui: RoomUIModel, visit: seq<string>): (r: RoomUIModel)
    requires Enumerates(visit, MembersOf(ui.manager).Keys)
    ensures r == ui.(joinOrder := r.joinOrder, nextJoinOrder := r.nextJoinOrder, items := r.items, selected := r.selected)
    ensures (r.joinOrder, r.nextJoinOrder, r.items)
            == MemberList(MembersOf(ui.manager), visit, ui.joinOrder, ui.nextJoinOrder, ui.manager.selfId)
    ensures forall k :: k in ui.joinOrder ==> k in r.joinOrder && r.joinOrder[k] == ui.joinOrder[k]
    ensures r.nextJoinOrder >= ui.nextJoinOrder
    ensures SortedByJoinOrder(r.items)
    ensures LastSelf(r.items).Some? ==> r.selected == LastSelf(r.items).value
    ensures LastSelf(r.items).None? ==> r.selected == ui.selected
  {
    var list := MemberList(MembersOf(ui.manager), visit, ui.joinOrder, ui.nextJoinOrder, ui.manager.selfId);
    var selected := match LastSelf(list.2) case Some(i) => i case None => ui.selected;
    ui.(joinOrder := list.0, nextJoinOrder := list.1, items := list.2, selected := selected)
  }

  /** The join-order map after a list update holds the ids numbered
      before and the id of every member. */
  lemma MemberListKeys(members: map<string, Member>, visit: seq<string>, order: map<string, int>, next: int,
                       selfId: string)
    requires Enumerates(visit, members.Keys)
    ensures var r := MemberList(members, visit, order, next, selfId);
            r.0.Keys == order.Keys + (set k | k in members :: members[k].id)
  {
    var ids := VisitedIds(members, visit);
    var r := MemberList(members, visit, order, next, selfId);
    assert (r.0, r.1) == AssignOrders(order, next, ids);
    VisitedIdSet(members, visit);
    assert r.0.Keys == order.Keys + (set k | k in members :: members[k].id);
  }

  /** A list update keeps the join orders valid: previously numbered ids
      keep theirs, and new ones get fresh, distinct numbers. */
  lemma MemberListKeepsOrdersValid(members: map<string, Member>, visit: seq<string>, order: map<string, int>,
                                   next: int, selfId: string)
    requires Enumerates(visit, members.Keys)
    ensures OrdersValid(order, next) && next >= 1 ==>
              var r := MemberList(members, visit, order, next, selfId);
              OrdersValid(r.0, r.1)
  {
    if OrdersValid(order, next) && next >= 1 {
      var ids := VisitedIds(members, visit);
      var r := MemberList(members, visit, order, next, selfId);
      assert (r.0, r.1) == AssignOrders(order, next, ids);
      AssignOrdersKeepValid(order, next, ids);
    }
  }

  /** The ids visited are the ids of the members. */
  lemma VisitedIdSet(members: map<string, Member>, visit: seq<string>)
    requires Enumerates(visit, members.Keys)
    ensures forall x :: x in VisitedIds(members, visit) <==> x in (set k | k in members :: members[k].id)
  {
    var ids := VisitedIds(members, visit);
    var memberIds := set k | k in members :: members[k].id;
    forall x | x in ids
      ensures x in memberIds
    {
      var i :| 0 <= i < |ids| && ids[i] == x;
      assert visit[i] in members && members[visit[i]].id == x;
    }
    forall x | x in memberIds
      ensures x in ids
    {
      var k :| k in members && members[k].id == x;
      var i :| 0 <= i < |visit| && visit[i] == k;
      assert ids[i] == x;
    }
  }

  /** A permutation has the same length and the same elements. */
  lemma PermutationFacts<T>(a: seq<T>, b: seq<T>)
    requires multiset(a) == multiset(b)
    ensures |a| == |b|
    ensures forall x :: x in a <==> x in b
  {
    assert |multiset(a)| == |multiset(b)|;
    forall x
      ensures x in a <==> x in b
    {
      assert x in a <==> x in multiset(a);
      assert x in b <==> x in multiset(b);
    }
  }

  /** The list has one row per member. */
  lemma MemberListLength(members: map<string, Member>, visit: seq<string>, order: map<string, int>, next: int,
                         selfId: string)
    requires Enumerates(visit, members.Keys)
    ensures |MemberList(members, visit, order, next, selfId).2| == |members|
  {
    var r := MemberList(members, visit, order, next, selfId);
    PermutationFacts(r.2, Rows(members, visit, r.0, selfId));
    EnumerationLength(visit, members.Keys);
  }

  /** An enumeration is as long as the set it enumerates. */
  lemma EnumerationLength(visit: seq<string>, keys: set<string>)
    requires Enumerates(visit, keys)
    ensures |visit| == |keys|
  {
    assert (set i | 0 <= i < |visit| :: visit[i]) == keys;
    DistinctCardinality(visit);
  }

  /** Each row shows a member of the map with that member's recorded join
      order, flagged exactly when it is the local node. */
  lemma MemberListRowFacts(members: map<string, Member>, visit: seq<string>, order: map<string, int>, next: int,
                           selfId: string, i: int)
    requires Enumerates(visit, members.Keys)
    requires 0 <= i < |MemberList(members, visit, order, next, selfId).2|
    ensures var r := MemberList(members, visit, order, next, selfId);
            && r.2[i].member in members.Values
            && r.2[i].member.id in r.0
            && r.2[i].joinOrder == r.0[r.2[i].member.id]
            && (r.2[i].isSelf <==> r.2[i].member.id == selfId)
  {
    var r := MemberList(members, visit, order, next, selfId);
    var rows := Rows(members, visit, r.0, selfId);
    PermutationFacts(r.2, rows);
    assert r.2[i] in rows;
    var j :| 0 <= j < |rows| && rows[j] == r.2[i];
    assert visit[j] in members;
  }

  /** Every member of the map has a row. */
  lemma MemberListCoversMembers(members: map<string, Member>, visit: seq<string>, order: map<string, int>,
                                next: int, selfId: string, k: string)
    requires Enumerates(visit, members.Keys)
    requires k in members
    ensures var items := MemberList(members, visit, order, next, selfId).2;
            exists i :: 0 <= i < |items| && items[i].member == members[k]
  {
    var r := MemberList(members, visit, order, next, selfId);
    var rows := Rows(members, visit, r.0, selfId);
    PermutationFacts(r.2, rows);
    var j :| 0 <= j < |visit| && visit[j] == k;
    assert rows[j].member == members[k];
    assert rows[j] in rows;
    var i :| 0 <= i < |r.2| && r.2[i] == rows[j];
  }

  /** With the map keyed by member id, no two rows share a join order. */
  lemma MemberListStrictlyOrdered(members: map<string, Member>, visit: seq<string>, order: map<string, int>,
                                  next: int, selfId: string)
    requires Enumerates(visit, members.Keys)
    requires RoomManager.KeyedById(members)
    requires OrdersValid(order, next) && next >= 1
    ensures var items := MemberList(members, visit, order, next, selfId).2;
            forall i, j :: 0 <= i < j < |items| ==> items[i].joinOrder < items[j].joinOrder
  {
    var r := MemberList(members, visit, order, next, selfId);
    var rows := Rows(members, visit, r.0, selfId);
    var items := r.2;
    MemberListKeepsOrdersValid(members, visit, order, next, selfId);
    forall a, b | 0 <= a < b < |rows|
      ensures rows[a] != rows[b]
    {
      assert members[visit[a]].id == visit[a];
      assert members[visit[b]].id == visit[b];
    }
    forall i, j | 0 <= i < j < |items|
      ensures items[i].joinOrder < items[j].joinOrder
    {
      if items[i].joinOrder == items[j].joinOrder {
        MemberListRowFacts(members, visit, order, next, selfId, i);
        MemberListRowFacts(members, visit, order, next, selfId, j);
        assert items[i].member.id == items[j].member.id;
        var ki :| ki in members && members[ki] == items[i].member;
        var kj :| kj in members && members[kj] == items[j].member;
        assert ki == kj;
        assert items[i] == items[j];
        MultisetCountsTwo(items, i, j);
        DistinctCountsOnce(rows, items[i]);
      }
    }
  }

  /** A sequence without repeats has as many elements as its set. */
  lemma {:induction false} DistinctCardinality(s: seq<string>)
    requires forall i, j :: 0 <= i < j < |s| ==> s[i] != s[j]
    ensures |set i | 0 <= i < |s| :: s[i]| == |s|
    decreases |s|
  {
    if |s| > 0 {
      var init := s[..|s| - 1];
      DistinctCardinality(init);
      var a := set i | 0 <= i < |init| :: init[i];
      var b := set i | 0 <= i < |s| :: s[i];
      assert b == a + {s[|s| - 1]};
      assert s[|s| - 1] !in a;
    }
  }

  /** `cleanupLeftMembers`: drops exactly the recorded ids that are no
      longer keys of the member map; with no room every id is dropped. */
  function CleanupLeftMembers(ui: RoomUIModel): (r: RoomUIModel)
    ensures r == ui.(joinOrder := r.joinOrder)
    ensures forall k :: k in r.joinOrder <==> k in ui.joinOrder && k in MembersOf(ui.manager)
    ensures forall k :: k in r.joinOrder ==> r.joinOrder[k] == ui.joinOrder[k]
    ensures OrdersValid(ui.joinOrder, ui.nextJoinOrder) ==> OrdersValid(r.joinOrder, r.nextJoinOrder)
  {
    var members := MembersOf(ui.manager);
    ui.(joinOrder := map k | k in ui.joinOrder && k in members :: ui.joinOrder[k])
  }

  /** What `Update` does for any message that is not a join, a leave or a
      key press: refresh the list, then forget the members that left. */
  function Refresh(ui: RoomUIModel, visit: seq<string>): (r: RoomUIModel)
    requires Enumerates(visit, MembersOf(ui.manager).Keys)
    ensures OrdersValid(ui.joinOrder, ui.nextJoinOrder) && ui.nextJoinOrder >= 1 ==>
              OrdersValid(r.joinOrder, r.nextJoinOrder)
    ensures SortedByJoinOrder(r.items)
    ensures var list := MemberList(MembersOf(ui.manager), visit, ui.joinOrder, ui.nextJoinOrder, ui.manager.selfId);
            && r.items == list.2
            && r.joinOrder.Keys == list.0.Keys * MembersOf(ui.manager).Keys
  {
    MemberListKeepsOrdersValid(MembersOf(ui.manager), visit, ui.joinOrder, ui.nextJoinOrder, ui.manager.selfId);
    CleanupLeftMembers(UpdateMemberList(ui, visit))
  }

  /** With the room keyed by member id (as the manager keeps it), a refresh
      leaves exactly the current members in the join-order map, and the
      list is strictly ordered: no two rows share a join order. */
  lemma RefreshTracksMembers(ui: RoomUIModel, visit: seq<string>)
    requires Enumerates(visit, MembersOf(ui.manager).Keys)
    requires RoomManager.KeyedById(MembersOf(ui.manager))
    requires OrdersValid(ui.joinOrder, ui.nextJoinOrder) && ui.nextJoinOrder >= 1
    ensures var r := Refresh(ui, visit);
            && r.joinOrder.Keys == MembersOf(ui.manager).Keys
            && forall i, j :: 0 <= i < j < |r.items| ==> r.items[i].joinOrder < r.items[j].joinOrder
  {
    var members := MembersOf(ui.manager);
    MemberListKeys(members, visit, ui.joinOrder, ui.nextJoinOrder, ui.manager.selfId);
    MemberListStrictlyOrdered(members, visit, ui.joinOrder, ui.nextJoinOrder, ui.manager.selfId);
    KeyedIds(members);
  }

  lemma KeyedIds(members: map<string, Member>)
    requires RoomManager.KeyedById(members)
    ensures (set k | k in members :: members[k].id) == members.Keys
  {
  }

  lemma MultisetCountsTwo<T>(s: seq<T>, i: int, j: int)
    requires 0 <= i < j < |s| && s[i] == s[j]
    ensures multiset(s)[s[i]] >= 2
  {
    assert s == s[..i] + [s[i]] + s[i + 1..j] + [s[j]] + s[j + 1..];
  }

  lemma {:induction false} DistinctCountsOnce<T>(s: seq<T>, x: T)
    requires forall a, b :: 0 <= a < b < |s| ==> s[a] != s[b]
    ensures multiset(s)[x] <= 1
    decreases |s|
  {
    if |s| > 0 {
      var init := s[..|s| - 1];
      DistinctCountsOnce(init, x);
      assert s == init + [s[|s| - 1]];
      if s[|s| - 1] == x {
        assert x !in init;
      }
    }
  }

  // ---------------------------------------------------------------------
  // Join, leave and key handling
  // ---------------------------------------------------------------------

  /** `handleJoinRoom`. An empty key is ignored. Otherwise the manager
      attempts the join (which replaces its room even when it fails); only
      a successful join shows the panel and restarts the join order. */
  function HandleJoinRoom(ui: RoomUIModel, key: string, t: RoomManager.Transport, now: Int64): (r: RoomUIModel)
    ensures key == "" ==> r == ui
    ensures key != "" ==> r.manager == RoomManager.JoinRoom(ui.manager, key, t, now).0
    ensures key != "" && RoomManager.JoinRoom(ui.manager, key, t, now).1.Pass? ==>
              r == ui.(manager := r.manager, state := RoomVisible, roomInput := "", joinOrder := map[], nextJoinOrder := 1)
    ensures key != "" && RoomManager.JoinRoom(ui.manager, key, t, now).1.Fail? ==>
              r == ui.(manager := r.manager)
  {
    if key == "" then ui
    else
      var (mgr, result) := RoomManager.JoinRoom(ui.manager, key, t, now);
      if result.Pass? then
        ui.(manager := mgr, state := RoomVisible, roomInput := "", joinOrder := map[], nextJoinOrder := 1)
      else
        ui.(manager := mgr)
  }

  /** `handleLeaveRoom`: leave whatever the outcome, hide the panel and
      forget the join order. */
  function HandleLeaveRoom(ui: RoomUIModel, publish: Outcome<string>, now: Int64): (r: RoomUIModel)
    ensures r == ui.(manager := r.manager, state := RoomHidden, joinOrder := map[], nextJoinOrder := 1)
    ensures r.manager == RoomManager.LeaveRoom(ui.manager, publish, now).0
    ensures RoomManager.GetMembers(r.manager).None?
  {
    ui.(manager := RoomManager.LeaveRoom(ui.manager, publish, now).0, state := RoomHidden,
        joinOrder := map[], nextJoinOrder := 1)
  }

  /** Once a join has gone through, the panel's leave does what the code's
      `LeaveRoom` does: the topic is set, so the as-written nil dereference
      cannot happen there. */
  lemma LeaveAfterJoinMatchesCode(ui: RoomUIModel, key: string, t: RoomManager.Transport, now: Int64,
                                  publish: Outcome<string>, later: Int64)
    requires key != "" && RoomManager.JoinRoom(ui.manager, key, t, now).1.Pass?
    ensures var joined := HandleJoinRoom(ui, key, t, now);
            RoomManager.LeaveRoomAsWritten(joined.manager, publish, later)
              == Some((HandleLeaveRoom(joined, publish, later).manager, Pass))
  {
  }

  function IsInRoom(ui: RoomUIModel): (b: bool)
    ensures b <==> ui.state == RoomVisible
  {
    ui.state == RoomVisible
  }

  function ShowInput(ui: RoomUIModel): (r: RoomUIModel)
    ensures r == ui.(state := RoomInput)
  {
    ui.(state := RoomInput)
  }

  function Hide(ui: RoomUIModel): (r: RoomUIModel)
    ensures r == ui.(state := RoomHidden)
  {
    ui.(state := RoomHidden)
  }

  /** `unicode.IsSpace`. */
  predicate IsSpace(c: char) {
    var n := c as int;
    || n in {0x09, 0x0A, 0x0B, 0x0C, 0x0D, 0x20, 0x85, 0xA0, 0x1680, 0x2028, 0x2029, 0x202F, 0x205F, 0x3000}
    || 0x2000 <= n <= 0x200A
  }

  /** The number of spaces at the front of `s`. */
  function LeadingSpaces(s: string): (n: nat)
    ensures n <= |s|
    ensures forall k :: 0 <= k < n ==> IsSpace(s[k])
    ensures n < |s| ==> !IsSpace(s[n])
    decreases |s|
  {
    if |s| == 0 || !IsSpace(s[0]) then 0 else 1 + LeadingSpaces(s[1..])
  }

  /** The number of spaces at the back of `s`. */
  function TrailingSpaces(s: string): (n: nat)
    ensures n <= |s|
    ensures forall k :: |s| - n <= k < |s| ==> IsSpace(s[k])
    ensures n < |s| ==> !IsSpace(s[|s| - n - 1])
    decreases |s|
  {
    if |s| == 0 || !IsSpace(s[|s| - 1]) then 0 else 1 + TrailingSpaces(s[..|s| - 1])
  }

  /** `strings.TrimSpace`: the text without leading and trailing spaces.
      The input is the leading spaces, then the result, then nothing but
      spaces; the result neither starts nor ends with a space. */
  function TrimSpace(s: string): (r: string)
    ensures |r| == 0 || (!IsSpace(r[0]) && !IsSpace(r[|r| - 1]))
    ensures LeadingSpaces(s) + |r| <= |s|
    ensures r == s[LeadingSpaces(s)..LeadingSpaces(s) + |r|]
    ensures forall k :: LeadingSpaces(s) + |r| <= k < |s| ==> IsSpace(s[k])
    ensures (forall i :: 0 <= i < |s| ==> IsSpace(s[i])) <==> r == ""
  {
    var i := LeadingSpaces(s);
    var rest := s[i..];
    var j := i + |rest| - TrailingSpaces(rest);
    assert s[i..j] == rest[..|rest| - TrailingSpaces(rest)];
    if i == |s| then
      s[i..j]
    else
      assert !IsSpace(s[i]);
      s[i..j]
  }

  /** Spaces around a core that has no space at either end are exactly
      what `TrimSpace` removes. */
  lemma TrimSpaceOfPadded(pre: string, core: string, post: string)
    requires forall k :: 0 <= k < |pre| ==> IsSpace(pre[k])
    requires forall k :: 0 <= k < |post| ==> IsSpace(post[k])
    requires |core| == 0 || (!IsSpace(core[0]) && !IsSpace(core[|core| - 1]))
    ensures TrimSpace(pre + core + post) == core
  {
    var s := pre + core + post;
    var r := TrimSpace(s);
    var l := LeadingSpaces(s);
    if |core| == 0 {
      assert forall k :: 0 <= k < |s| ==> IsSpace(s[k]) by {
        forall k | 0 <= k < |s| ensures IsSpace(s[k]) {
          if k < |pre| { assert s[k] == pre[k]; } else { assert s[k] == post[k - |pre|]; }
        }
      }
    } else {
      assert forall k :: 0 <= k < |pre| ==> s[k] == pre[k];
      assert forall k :: |pre| <= k < |pre| + |core| ==> s[k] == core[k - |pre|];
      assert forall k :: |pre| + |core| <= k < |s| ==> s[k] == post[k - |pre| - |core|];
      assert !IsSpace(s[|pre|]);
      assert l <= |pre|;
      assert !IsSpace(s[l]);
      assert l == |pre|;
      var last := |pre| + |core| - 1;
      assert !IsSpace(s[last]);
      assert |r| >= |core|;
      assert !IsSpace(s[l + |r| - 1]);
      assert |r| == |core|;
      assert s[l..l + |core|] == core;
    }
  }

  /** Trimming twice is trimming once. */
  lemma TrimSpaceIsIdempotent(s: string)
    ensures TrimSpace(TrimSpace(s)) == TrimSpace(s)
  {
  }

  /** Key presses in the panel. While the room-key prompt is shown, Enter
      asks to join with the trimmed key (nothing when it is blank) and Esc
      closes and clears the prompt; other keys edit the prompt, which is
      not modelled. While the room is shown, only the leave binding acts.
      Hidden, the panel ignores keys. */
  function HandleKeyPress(ui: RoomUIModel, key: string, isLeaveBinding: bool): (r: (RoomUIModel, Option<RoomMsg>))
    ensures ui.state == RoomHidden ==> r == (ui, None)
    ensures ui.state == RoomInput && key == "enter" && TrimSpace(ui.roomInput) != "" ==>
              r == (ui, Some(JoinRoomMsg(TrimSpace(ui.roomInput))))
    ensures ui.state == RoomInput && key == "esc" ==> r == (ui.(state := RoomHidden, roomInput := ""), None)
    ensures ui.state == RoomVisible ==> r == (ui, if isLeaveBinding then Some(LeaveRoomMsg) else None)
    ensures r.1.Some? && r.1.value.JoinRoomMsg? ==> r.1.value.roomKey != ""
  {
    match ui.state
    case RoomInput =>
      if key == "enter" && TrimSpace(ui.roomInput) != "" then (ui, Some(JoinRoomMsg(TrimSpace(ui.roomInput))))
      else if key == "esc" then (ui.(state := RoomHidden, roomInput := ""), None)
      else (ui, None)
    case RoomVisible => (ui, if isLeaveBinding then Some(LeaveRoomMsg) else None)
    case RoomHidden => (ui, None)
  }

  // ---------------------------------------------------------------------
  // State broadcast
  // ---------------------------------------------------------------------

  /** The member state a timer shows. */
  function DerivedState(t: TaskList.TimeModel): (s: MemberState)
    ensures s == Work <==> t.isRunning && t.isWorkSession
    ensures s == Rest <==> t.isRunning && !t.isWorkSession
    ensures s == Idle <==> !t.isRunning
  {
    if t.isRunning then (if t.isWorkSession then Work else Rest) else Idle
  }

  /** `CreateMemberFromApp`: the local node as a room member, built from the
      running timer and the current task; `now` is the Unix time. */
  function CreateMemberFromApp(selfId: string, t: TaskList.TimeModel, tasks: seq<TaskList.Task>,
                               taskIndex: int, now: Int64): (m: Member)
    ensures m.id == selfId && m.name == RoomManager.DefaultName && m.updatedAt == now
    ensures m.state == DerivedState(t)
    ensures m.timer == TimerInfo(t.duration, t.remaining, t.isRunning, t.isWorkSession)
    ensures 0 <= taskIndex < |tasks| ==> m.taskName == TaskList.Title(tasks[taskIndex])
    ensures !(0 <= taskIndex < |tasks|) ==> m.taskName == ""
  {
    var taskName := if 0 <= taskIndex < |tasks| then TaskList.Title(tasks[taskIndex]) else "";
    Member(selfId, RoomManager.DefaultName, DerivedState(t),
           TimerInfo(t.duration, t.remaining, t.isRunning, t.isWorkSession), taskName, now)
  }

  /** `RoomUIModel.BroadcastState`: nothing happens outside a room;
      otherwise the manager broadcasts the member built from the timer. */
  function BroadcastState(ui: RoomUIModel, t: TaskList.TimeModel, tasks: seq<TaskList.Task>, taskIndex: int,
                          publish: Outcome<string>, now: Int64): (r: (RoomUIModel, Outcome<string>))
    ensures !IsInRoom(ui) ==> r == (ui, Pass)
    ensures IsInRoom(ui) ==>
              var b := RoomManager.BroadcastState(ui.manager, CreateMemberFromApp(ui.manager.selfId, t, tasks, taskIndex, now), publish);
              r == (ui.(manager := b.0), b.1)
  {
    if !IsInRoom(ui) then (ui, Pass)
    else
      var member := CreateMemberFromApp(ui.manager.selfId, t, tasks, taskIndex, now);
      var (mgr, result) := RoomManager.BroadcastState(ui.manager, member, publish);
      (ui.(manager := mgr), result)
  }

  /** A member built from the app is a valid state update whenever the
      node has an id, so what the panel broadcasts passes validation at the
      receivers that validate. */
  lemma BroadcastMemberIsValid(selfId: string, t: TaskList.TimeModel, tasks: seq<TaskList.Task>,
                               taskIndex: int, now: Int64)
    requires selfId != ""
    ensures var m := CreateMemberFromApp(selfId, t, tasks, taskIndex, now);
            Messages.IsValid(Some(Messages.CreateStateUpdateMessage(Some(m))))
  {
  }

  /** The broadcast member's state and timer agree: a member shown as
      working or resting has a running timer of that kind. */
  lemma BroadcastStateMatchesTimer(selfId: string, t: TaskList.TimeModel, tasks: seq<TaskList.Task>,
                                   taskIndex: int, now: Int64)
    ensures var m := CreateMemberFromApp(selfId, t, tasks, taskIndex, now);
            && (m.state == Work <==> m.timer.isRunning && m.timer.isWork)
            && (m.state == Rest <==> m.timer.isRunning && !m.timer.isWork)
            && (m.state == Idle <==> !m.timer.isRunning)
            && (TimerText(m.timer) == "" <==> m.state == Idle)
  {
  }
}
