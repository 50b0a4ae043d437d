/** The peer table of the discovery service (pkg/p2p/discovery.go). mDNS,
    dialling and the two ticker loops are outside the model: each loop is
    one call of its per-tick body, the clock is a parameter `now` in
    nanoseconds (Go's `time.Duration` unit), and "has a live connection" is
    a set of peer ids supplied by the caller. Callbacks and dial attempts are
    returned as events. */
module Discovery {
  import opened Wrappers
  import opened P2PTypes

  const Second: int := 1_000_000_000
  const Minute: int := 60 * Second
  /** Peers unseen for strictly longer than this are removed by cleanup. */
  const StaleAfter: int := 5 * Minute

  datatype PeerInfo = PeerInfo(id: string, addrs: seq<string>, connected: bool, lastSeen: int, state: MemberState)

  type PeerTable = map<string, PeerInfo>

  /** The service's table and whether each callback is set (non-nil). */
  datatype Service = Service(peers: PeerTable, hasOnPeerFound: bool, hasOnPeerLost: bool)

  /** What a discovery step asks the outside world to do. */
  datatype Event = Dial(id: string) | PeerFound(id: string) | PeerLost(id: string)

  predicate KeyedById(peers: PeerTable) {
    forall k :: k in peers ==> peers[k].id == k
  }

  /** `NewDiscoveryService`: an empty table. */
  function NewService(hasOnPeerFound: bool, hasOnPeerLost: bool): (s: Service)
    ensures s.peers == map[] && s.hasOnPeerFound == hasOnPeerFound && s.hasOnPeerLost == hasOnPeerLost
  {
    Service(map[], hasOnPeerFound, hasOnPeerLost)
  }

  /** `HandlePeerFound`: a known peer only has its addresses and `lastSeen`
      refreshed; an unseen one is inserted idle and unconnected, a dial is
      started, and `onPeerFound` fires once if set. */
  function HandlePeerFound(svc: Service, id: string, addrs: seq<string>, now: int): (r: (Service, seq<Event>))
    ensures r.0.hasOnPeerFound == svc.hasOnPeerFound && r.0.hasOnPeerLost == svc.hasOnPeerLost
    ensures r.0.peers.Keys == svc.peers.Keys + {id}
    ensures forall k :: k in svc.peers && k != id ==> r.0.peers[k] == svc.peers[k]
    ensures id in svc.peers ==>
              && r.0.peers[id] == svc.peers[id].(addrs := addrs, lastSeen := now)
              && r.1 == []
    ensures id !in svc.peers ==>
              && r.0.peers[id] == PeerInfo(id, addrs, false, now, Idle)
              && r.1 == [Dial(id)] + (if svc.hasOnPeerFound then [PeerFound(id)] else [])
    ensures KeyedById(svc.peers) ==> KeyedById(r.0.peers)
  {
    if id in svc.peers then
      (svc.(peers := svc.peers[id := svc.peers[id].(addrs := addrs, lastSeen := now)]), [])
    else
      var events := [Dial(id)] + (if svc.hasOnPeerFound then [PeerFound(id)] else []);
      (svc.(peers := svc.peers[id := PeerInfo(id, addrs, false, now, Idle)]), events)
  }

  /** The end of `connectToPeer` after a successful connect: only a peer
      still in the table is updated. A failed connect changes nothing. */
  function ConnectSucceeded(peers: PeerTable, id: string, now: int): (r: PeerTable)
    ensures r.Keys == peers.Keys
    ensures id in peers ==> r[id] == peers[id].(connected := true, lastSeen := now)
    ensures forall k :: k in peers && k != id ==> r[k] == peers[k]
  {
    if id in peers then peers[id := peers[id].(connected := true, lastSeen := now)] else peers
  }

  /** One peer after a connection check. */
  function Checked(p: PeerInfo, live: set<string>, id: string, now: int): PeerInfo {
    var c := id in live;
    p.(connected := c, lastSeen := if c then now else p.lastSeen)
  }

  /** `checkConnections`: every peer's `connected` becomes whether it has a
      live connection, `lastSeen` is refreshed for the peers connected after
      the check, and `onPeerLost` fires (if set) exactly for the peers that
      went from connected to disconnected. */
  function CheckConnections(svc: Service, live: set<string>, now: int): (r: (Service, set<string>))
    ensures r.0.peers.Keys == svc.peers.Keys
    ensures r.0.hasOnPeerFound == svc.hasOnPeerFound && r.0.hasOnPeerLost == svc.hasOnPeerLost
    ensures forall k :: k in svc.peers ==>
              && r.0.peers[k].connected == (k in live)
              && r.0.peers[k].lastSeen == (if k in live then now else svc.peers[k].lastSeen)
              && r.0.peers[k].addrs == svc.peers[k].addrs
              && r.0.peers[k].state == svc.peers[k].state
              && r.0.peers[k].id == svc.peers[k].id
    ensures forall k :: k in r.1 <==> svc.hasOnPeerLost && k in svc.peers && svc.peers[k].connected && k !in live
  {
    var peers := map k | k in svc.peers :: Checked(svc.peers[k], live, k, now);
    var lost := if svc.hasOnPeerLost then set k | k in svc.peers && svc.peers[k].connected && k !in live else {};
    (svc.(peers := peers), lost)
  }

  predicate IsStale(p: PeerInfo, now: int) {
    now - p.lastSeen > StaleAfter
  }

  /** The body of the `cleanupPeers` tick: removes exactly the peers unseen
      for strictly more than five minutes, connected or not. */
  function Cleanup(peers: PeerTable, now: int): (r: PeerTable)
    ensures forall k :: k in r <==> k in peers && now - peers[k].lastSeen <= StaleAfter
    ensures forall k :: k in r ==> r[k] == peers[k]
  {
    map k | k in peers && !IsStale(peers[k], now) :: peers[k]
  }

  /** `GetPeers`: the table itself (a value, hence a copy). */
  function GetPeers(svc: Service): (r: PeerTable)
    ensures r == svc.peers
  {
    svc.peers
  }

  /** `GetConnectedPeers`: the ids whose `connected` flag is set, each once,
      in the table's (unspecified) iteration order. */
  method GetConnectedPeers(peers: PeerTable) returns (ids: seq<string>)
    ensures forall id :: id in ids <==> id in peers && peers[id].connected
    ensures forall i, j :: 0 <= i < j < |ids| ==> ids[i] != ids[j]
  {
    ids := [];
    var rest := peers.Keys;
    while rest != {}
      invariant rest <= peers.Keys
      invariant forall id :: id in ids <==> id in peers && id !in rest && peers[id].connected
      invariant forall i, j :: 0 <= i < j < |ids| ==> ids[i] != ids[j]
      decreases rest
    {
      var id :| id in rest;
      if peers[id].connected {
        ids := ids + [id];
      }
      rest := rest - {id};
    }
  }

  /** `UpdatePeerState`: a known peer gets the new state and `lastSeen`; an
      unknown id changes nothing. */
  function UpdatePeerState(peers: PeerTable, id: string, state: MemberState, now: int): (r: PeerTable)
    ensures id !in peers ==> r == peers
    ensures r.Keys == peers.Keys
    ensures id in peers ==> r[id] == peers[id].(state := state, lastSeen := now)
    ensures forall k :: k in peers && k != id ==> r[k] == peers[k]
  {
    if id in peers then peers[id := peers[id].(state := state, lastSeen := now)] else peers
  }

  /** `GetPeerInfo`: nil for an unknown id. */
  function GetPeerInfo(peers: PeerTable, id: string): (r: Option<PeerInfo>)
    ensures r.None? <==> id !in peers
    ensures r.Some? ==> r.value == peers[id]
  {
    if id in peers then Some(peers[id]) else None
  }

  // ---------------------------------------------------------------------
  // Properties across steps
  // ---------------------------------------------------------------------

  /** Rediscovering a known peer neither redials nor notifies, and leaves
      its connection flag and state alone. */
  lemma RediscoveryIsQuiet(svc: Service, id: string, addrs: seq<string>, now: int)
    requires id in svc.peers
    ensures var r := HandlePeerFound(svc, id, addrs, now);
            && r.1 == []
            && r.0.peers[id].connected == svc.peers[id].connected
            && r.0.peers[id].state == svc.peers[id].state
  {
  }

  /** After a connection check, `GetConnectedPeers` reports exactly the
      tracked peers that have a live connection. */
  method ConnectedAfterCheck(svc: Service, live: set<string>, now: int) returns (ids: seq<string>)
    ensures forall id :: id in ids <==> id in svc.peers && id in live
  {
    var checked := CheckConnections(svc, live, now).0;
    ids := GetConnectedPeers(checked.peers);
  }

  /** A peer that is connected at a check survives every cleanup that runs
      within five minutes of it. */
  lemma ConnectedPeerSurvivesCleanup(svc: Service, live: set<string>, now: int, later: int, id: string)
    requires id in svc.peers && id in live
    requires later - now <= StaleAfter
    ensures id in Cleanup(CheckConnections(svc, live, now).0.peers, later)
  {
  }

  /** Every step keeps the table keyed by peer id. */
  lemma StepsKeepTableKeyed(svc: Service, id: string, addrs: seq<string>, live: set<string>,
                            state: MemberState, now: int)
    requires KeyedById(svc.peers)
    ensures KeyedById(HandlePeerFound(svc, id, addrs, now).0.peers)
    ensures KeyedById(ConnectSucceeded(svc.peers, id, now))
    ensures KeyedById(CheckConnections(svc, live, now).0.peers)
    ensures KeyedById(Cleanup(svc.peers, now))
    ensures KeyedById(UpdatePeerState(svc.peers, id, state, now))
  {
  }
}
