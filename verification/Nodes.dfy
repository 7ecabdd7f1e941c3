/** The node service: provisioning, what nodes report about themselves, and the liveness sweep. */
module Nodes {
  import opened Wrappers
  import opened Records

  datatype Thresholds = Thresholds(staleAfter: int, offlineAfter: int)

  datatype Provisioning = Provisioning(node: NodeId, displayName: string, enabled: bool, autoplaySelected: bool)

  datatype Message =
    | Heartbeat(status: string, spot: Option<string>)
    | StatusUpdate(status: string, spot: Option<string>, details: string)
    | SyncResult(success: bool, error: Option<string>)
    | PlaybackStarted(started: string)
    | PlaybackFinished
    | PlaybackStopped
    | PlaybackError(message: string)

  // ----- Single rows -----

  function Provisioned(s: State, p: Provisioning, token: string): State {
    s.(nodes := s.nodes[p.node :=
      if p.node in s.nodes
      then s.nodes[p.node].(displayName := p.displayName, secret := token,
                            enabled := p.enabled, autoplaySelected := p.autoplaySelected)
      else Node(p.displayName, token, p.enabled, p.autoplaySelected, Offline, "idle", None, None, None, None)])
  }

  function Idle(n: Node): Node {
    n.(connection := Offline, operational := "idle", spot := None)
  }

  /** What a message does to its node. Only heartbeats and sync results count as heartbeats. */
  function Reported(n: Node, m: Message, now: int): Node {
    var seen := n.(connection := Online, lastSeen := Some(now));
    match m
    case Heartbeat(status, spot) => seen.(operational := status, spot := spot, lastHeartbeat := Some(now))
    case StatusUpdate(status, spot, details) =>
      seen.(operational := status, spot := spot,
            lastError := if details == "" then n.lastError else if status == "error" then Some(details) else None)
    case SyncResult(success, error) =>
      seen.(operational := if success then "ready" else "error", lastError := error, lastHeartbeat := Some(now))
    case PlaybackStarted(started) => seen.(operational := "playing", spot := Some(started))
    case PlaybackFinished => seen.(operational := "ready", spot := None)
    case PlaybackStopped => seen.(operational := "stopped", spot := None)
    case PlaybackError(message) => seen.(operational := "error", lastError := Some(message))
  }

  function Greeted(n: Node, displayName: string, now: int): Node {
    n.(displayName := displayName, connection := Online, operational := "idle",
       lastSeen := Some(now), lastHeartbeat := Some(now))
  }

  /** An approved enrollment is completed by the node's first HELLO; its token is not kept. */
  function Claimed(es: seq<Enrollment>, node: NodeId, now: int): seq<Enrollment> {
    match LatestWith(es, node, Approved)
    case None => es
    case Some(i) =>
      es[i := es[i].(status := Enrolled, token := None,
                     claimedAt := if es[i].claimedAt.None? then Some(now) else es[i].claimedAt)]
  }

  // ----- Liveness -----

  function Reference(n: Node): Option<int> {
    if n.lastHeartbeat.Some? then n.lastHeartbeat else n.lastSeen
  }

  /** The connection state that a reference time stands for. */
  function Classify(th: Thresholds, now: int, reference: int): Connection {
    if now - reference >= th.offlineAfter then Offline
    else if now - reference >= th.staleAfter then Stale
    else Online
  }

  function Swept(th: Thresholds, now: int, n: Node): Node {
    match Reference(n)
    case None => n
    case Some(reference) =>
      var c := Classify(th, now, reference);
      if c == n.connection then n else if c.Offline? then Idle(n) else n.(connection := c)
  }

  function SweptAll(th: Thresholds, now: int, nodes: map<NodeId, Node>): map<NodeId, Node> {
    map id | id in nodes :: Swept(th, now, nodes[id])
  }

  /** Those of ids whose connection state the sweep changes, in order. */
  function Changed(th: Thresholds, now: int, nodes: map<NodeId, Node>, ids: seq<NodeId>): seq<NodeId>
    requires forall id :: id in ids ==> id in nodes
  {
    if ids == [] then []
    else
      var before, id := Changed(th, now, nodes, ids[..|ids| - 1]), ids[|ids| - 1];
      if Swept(th, now, nodes[id]).connection != nodes[id].connection then before + [id] else before
  }

  predicate Target(n: Node) {
    n.enabled && n.autoplaySelected && n.connection.Online?
  }

  /** The nodes that autoplay plays on: enabled, selected, and online. */
  function AutoplayTargets(nodes: map<NodeId, Node>, ids: seq<NodeId>): (r: seq<NodeId>)
    requires forall id :: id in ids ==> id in nodes
    ensures forall id :: id in r <==>
              id in ids && nodes[id].enabled && nodes[id].autoplaySelected && nodes[id].connection.Online?
  {
    if ids == [] then []
    else if Target(nodes[ids[0]]) then [ids[0]] + AutoplayTargets(nodes, ids[1..])
    else AutoplayTargets(nodes, ids[1..])
  }

  // ----- What the sweep does -----

  lemma {:induction false} ChangedExactly(th: Thresholds, now: int, nodes: map<NodeId, Node>, ids: seq<NodeId>)
    requires forall id :: id in ids ==> id in nodes
    ensures forall id :: id in Changed(th, now, nodes, ids) <==>
              id in ids && SweptAll(th, now, nodes)[id].connection != nodes[id].connection
  {
    if ids != [] {
      assert ids == ids[..|ids| - 1] + [ids[|ids| - 1]];
      ChangedExactly(th, now, nodes, ids[..|ids| - 1]);
    }
  }

  /** After a sweep every node that was ever heard of stands where its reference time says,
      whatever it was before; the others are left alone. */
  lemma SweepClassifies(th: Thresholds, now: int, nodes: map<NodeId, Node>, id: NodeId)
    requires id in nodes
    ensures var n := SweptAll(th, now, nodes)[id];
            && Reference(n) == Reference(nodes[id])
            && (match Reference(nodes[id])
                case Some(reference) => n.connection == Classify(th, now, reference)
                case None => n == nodes[id])
  {
  }

  /** A second sweep at the same moment changes nothing and reports nobody. */
  lemma SecondSweepIsIdle(th: Thresholds, now: int, nodes: map<NodeId, Node>, ids: seq<NodeId>)
    requires forall id :: id in ids ==> id in nodes
    ensures var once := SweptAll(th, now, nodes);
            SweptAll(th, now, once) == once && Changed(th, now, once, ids) == []
  {
    var once := SweptAll(th, now, nodes);
    assert SweptAll(th, now, once) == once;
    ChangedExactly(th, now, once, ids);
    if Changed(th, now, once, ids) != [] {
      var id := Changed(th, now, once, ids)[0];
      assert id in Changed(th, now, once, ids);
    }
  }

  /** What a sweep leaves: everyone who was ever heard of at the class of the reference time, a report
      of exactly those whose state changed, and nothing to do for another sweep at that moment. */
  ghost predicate SettledBy(th: Thresholds, now: int, before: map<NodeId, Node>, after: map<NodeId, Node>,
                            changed: seq<NodeId>, order: seq<NodeId>)
  {
    && after.Keys == before.Keys && (forall id :: id in order ==> id in after)
    && (forall id :: id in before && Reference(before[id]).Some? ==>
          after[id].connection == Classify(th, now, Reference(before[id]).value))
    && (forall id :: id in changed <==> id in before && after[id].connection != before[id].connection)
    && SweptAll(th, now, after) == after && Changed(th, now, after, order) == []
  }

  lemma SweepSettles(th: Thresholds, now: int, nodes: map<NodeId, Node>, order: seq<NodeId>)
    requires forall id :: id in nodes <==> id in order
    ensures SettledBy(th, now, nodes, SweptAll(th, now, nodes), Changed(th, now, nodes, order), order)
  {
    var after := SweptAll(th, now, nodes);
    forall id | id in nodes && Reference(nodes[id]).Some?
      ensures after[id].connection == Classify(th, now, Reference(nodes[id]).value)
    {
      SweepClassifies(th, now, nodes, id);
    }
    ChangedExactly(th, now, nodes, order);
    SecondSweepIsIdle(th, now, nodes, order);
  }

  /** Only heartbeats and sync results keep a node from ageing: with any other message it is online,
      and the next sweep puts it back to where its last heartbeat says. */
  lemma OnlyBeatsCount(th: Thresholds, n: Node, m: Message, said: int, now: int)
    requires n.lastHeartbeat.Some?
    ensures Reported(n, m, said).connection.Online?
    ensures Swept(th, now, Reported(n, m, said)).connection
         == Classify(th, now, if m.Heartbeat? || m.SyncResult? then said else n.lastHeartbeat.value)
  {
    match m
    case Heartbeat(_, _) =>
    case SyncResult(_, _) =>
    case _ => assert Reference(Reported(n, m, said)) == n.lastHeartbeat;
  }

  /** Stale is ever seen exactly if the thresholds leave room for it. */
  lemma StaleIsSeenIff(th: Thresholds)
    ensures (exists now: int, reference: int :: Classify(th, now, reference).Stale?)
       <==> th.staleAfter < th.offlineAfter
  {
    if th.staleAfter < th.offlineAfter {
      assert Classify(th, th.staleAfter, 0).Stale?;
    }
  }

  /** A sweep may make a node that has just hung up a target of autoplay again. */
  lemma SweepRevivesTarget(th: Thresholds, now: int, n: Node)
    requires n.enabled && n.autoplaySelected && Reference(n).Some?
    ensures Target(Swept(th, now, Idle(n))) <==> Classify(th, now, Reference(n).value).Online?
  {
  }
}
