/** The node service's methods; none of them spoils what the tables keep over whole runs. */
module NodeService {
  import opened Wrappers
  import opened Records
  import opened Nodes
  import opened RegistryRuns
  import opened RegistryLaws

  ghost predicate Valid(db: Database)
    reads db
  {
    Sound(db.Contents())
  }

  method ProvisionNodeWithToken(db: Database, p: Provisioning, token: string)
    modifies db
    ensures db.Contents() == Provisioned(old(db.Contents()), p, token)
    ensures HasBeenProvisioned(old(db.Contents()), db.Contents(), p, token)
    ensures db.Contents() == Step(old(db.Contents()), Event.Provision(p, token))
    ensures old(Valid(db)) ==> Valid(db)
  {
    StaysSound(db.Contents(), Event.Provision(p, token));
    ProvisionMeans(db.Contents(), p, token);
    if p.node !in db.nodes {
      var node := Node(p.displayName, token, p.enabled, p.autoplaySelected, Offline, "idle", None, None, None, None);
      db.nodes := db.nodes[p.node := node];
    } else {
      var node := db.nodes[p.node];
      node := node.(displayName := p.displayName);
      node := node.(secret := token);
      node := node.(enabled := p.enabled);
      node := node.(autoplaySelected := p.autoplaySelected);
      db.nodes := db.nodes[p.node := node];
    }
  }

  /** Start-up: nobody is connected. */
  method ResetRuntimeState(db: Database, order: seq<NodeId>)
    requires forall id :: id in db.nodes <==> id in order
    modifies db`nodes
    ensures db.nodes == map id | id in old(db.nodes) :: Idle(old(db.nodes)[id])
    ensures forall id :: id in db.nodes ==> IsIdleNow(old(db.nodes)[id], db.nodes[id])
    ensures db.Contents() == Step(old(db.Contents()), ResetRuntime)
    ensures old(Valid(db)) ==> Valid(db)
  {
    StaysSound(db.Contents(), ResetRuntime);
    ghost var was := db.nodes;
    for i := 0 to |order|
      invariant db.nodes.Keys == was.Keys
      invariant forall id :: id in was ==> db.nodes[id] == if id in order[..i] then Idle(was[id]) else was[id]
    {
      var id := order[i];
      assert order[..i + 1] == order[..i] + [id];
      var node := db.nodes[id];
      node := node.(connection := Offline);
      node := node.(operational := "idle");
      node := node.(spot := None);
      db.nodes := db.nodes[id := node];
    }
    assert order[..|order|] == order;
    forall id | id in was ensures IsIdleNow(was[id], Idle(was[id])) {
      IdleMeans(was[id]);
    }
  }

  /** HELLO: the credentials first; a known node is online and idle, and its enrollment complete. */
  method HandleHello(db: Database, node: NodeId, token: string, displayName: string, now: int) returns (ok: bool)
    modifies db
    ensures ok <==> node in old(db.nodes) && old(db.nodes)[node].secret == token
    ensures ok ==> db.nodes == old(db.nodes)[node := Greeted(old(db.nodes)[node], displayName, now)]
                   && db.enrollments == Claimed(old(db.enrollments), node, now)
    ensures !ok ==> db.Contents() == old(db.Contents())
    ensures ok ==> node in db.nodes && HasGreeted(old(db.nodes)[node], db.nodes[node], displayName, now)
    ensures ok ==> HasBeenClaimed(old(db.enrollments), db.enrollments, node, now)
    ensures db.Contents() == Step(old(db.Contents()), Event.Hello(node, token, displayName, now))
    ensures old(Valid(db)) ==> Valid(db)
  {
    StaysSound(db.Contents(), Event.Hello(node, token, displayName, now));
    if node in db.nodes { HelloMeans(db.Contents(), node, displayName, now); }
    if node !in db.nodes || db.nodes[node].secret != token {
      return false;
    }
    var row := db.nodes[node].(displayName := displayName, connection := Online, operational := "idle");
    row := row.(lastSeen := Some(now), lastHeartbeat := Some(now));
    db.nodes := db.nodes[node := row];
    var approved := LatestWith(db.enrollments, node, Approved);
    if approved.Some? {
      var e := db.enrollments[approved.value].(status := Enrolled);
      if e.claimedAt.None? {
        e := e.(claimedAt := Some(now));
      }
      e := e.(token := None);
      db.enrollments := db.enrollments[approved.value := e];
    }
    ok := true;
  }

  /** HEARTBEAT, STATUS_UPDATE, SYNC_RESULT and the playback messages, on the node's own row. */
  method Note(was: Node, m: Message, now: int) returns (n: Node)
    ensures n == Reported(was, m, now)
  {
    n := was.(connection := Online, lastSeen := Some(now));
    match m {
      case Heartbeat(status, spot) =>
        n := n.(operational := status);
        n := n.(spot := spot);
        n := n.(lastHeartbeat := Some(now));
      case StatusUpdate(status, spot, details) =>
        n := n.(operational := status);
        n := n.(spot := spot);
        if details != "" {
          n := n.(lastError := if status == "error" then Some(details) else None);
        }
      case SyncResult(success, error) =>
        n := n.(lastHeartbeat := Some(now));
        n := n.(operational := if success then "ready" else "error");
        n := n.(lastError := error);
      case PlaybackStarted(started) =>
        n := n.(operational := "playing");
        n := n.(spot := Some(started));
      case PlaybackFinished =>
        n := n.(operational := "ready");
        n := n.(spot := None);
      case PlaybackStopped =>
        n := n.(operational := "stopped");
        n := n.(spot := None);
      case PlaybackError(message) =>
        n := n.(operational := "error");
        n := n.(lastError := Some(message));
    }
  }

  method HandleMessage(db: Database, node: NodeId, m: Message, now: int) returns (ok: bool)
    modifies db`nodes
    ensures ok <==> node in old(db.nodes)
    ensures db.nodes == if ok then old(db.nodes)[node := Reported(old(db.nodes)[node], m, now)] else old(db.nodes)
    ensures ok ==> HasReported(old(db.nodes)[node], db.nodes[node], m, now)
    ensures db.Contents() == Step(old(db.Contents()), Report(node, m, now))
    ensures old(Valid(db)) ==> Valid(db)
  {
    StaysSound(db.Contents(), Report(node, m, now));
    if node in db.nodes { ReportMeans(db.nodes[node], m, now); }
    if node !in db.nodes {
      return false;
    }
    var n := Note(db.nodes[node], m, now);
    db.nodes := db.nodes[node := n];
    ok := true;
  }

  method MarkDisconnected(db: Database, node: NodeId)
    modifies db`nodes
    ensures db.nodes == if node in old(db.nodes) then old(db.nodes)[node := Idle(old(db.nodes)[node])]
                        else old(db.nodes)
    ensures node in old(db.nodes) ==> IsIdleNow(old(db.nodes)[node], db.nodes[node])
    ensures db.Contents() == Step(old(db.Contents()), Disconnected(node))
    ensures old(Valid(db)) ==> Valid(db)
  {
    StaysSound(db.Contents(), Disconnected(node));
    if node in db.nodes { IdleMeans(db.nodes[node]); }
    if node in db.nodes {
      var n := db.nodes[node].(connection := Offline);
      n := n.(operational := "idle");
      n := n.(spot := None);
      db.nodes := db.nodes[node := n];
    }
  }

  method SweepOne(th: Thresholds, n: Node, now: int) returns (node: Node, moved: bool)
    ensures node == Swept(th, now, n)
    ensures moved <==> Swept(th, now, n).connection != n.connection
  {
    node, moved := n, false;
    var reference := if node.lastHeartbeat.Some? then node.lastHeartbeat else node.lastSeen;
    if reference.None? {
      return;
    }
    var elapsed := now - reference.value;
    if elapsed >= th.offlineAfter {
      if !node.connection.Offline? {
        node := node.(connection := Offline, operational := "idle", spot := None);
        moved := true;
      }
    } else if elapsed >= th.staleAfter {
      if !node.connection.Stale? {
        node := node.(connection := Stale);
        moved := true;
      }
    } else if !node.connection.Online? {
      node := node.(connection := Online);
      moved := true;
    }
  }

  method SweepInOrder(db: Database, th: Thresholds, order: seq<NodeId>, now: int) returns (changed: seq<NodeId>)
    requires forall id :: id in db.nodes <==> id in order
    requires forall i, j :: 0 <= i < j < |order| ==> order[i] != order[j]
    modifies db`nodes
    ensures db.nodes == SweptAll(th, now, old(db.nodes))
    ensures changed == Changed(th, now, old(db.nodes), order)
  {
    ghost var was := db.nodes;
    ghost var done: set<NodeId> := {};
    changed := [];
    for i := 0 to |order|
      invariant db.nodes == SweptSome(th, now, was, done)
      invariant forall j :: 0 <= j < i ==> order[j] in done
      invariant forall j :: i <= j < |order| ==> order[j] !in done
      invariant changed == Changed(th, now, was, order[..i])
    {
      var id := order[i];
      assert id in order;
      assert order[..i + 1][..i] == order[..i];
      var node, moved := SweepOne(th, db.nodes[id], now);
      if moved {
        changed := changed + [id];
      }
      db.nodes := db.nodes[id := node];
      SweptOneMore(th, now, was, done, id);
      done := done + {id};
    }
    assert order[..|order|] == order;
    AllSwept(th, now, was, done);
  }

  /** Classifies every node by the time of its last heartbeat, or else of its last message. */
  method SweepLiveness(db: Database, th: Thresholds, order: seq<NodeId>, now: int) returns (changed: seq<NodeId>)
    requires forall id :: id in db.nodes <==> id in order
    requires forall i, j :: 0 <= i < j < |order| ==> order[i] != order[j]
    modifies db`nodes
    ensures db.nodes == SweptAll(th, now, old(db.nodes))
    ensures changed == Changed(th, now, old(db.nodes), order)
    ensures SettledBy(th, now, old(db.nodes), db.nodes, changed, order)
    ensures db.nodes.Keys == old(db.nodes).Keys
    ensures forall id :: id in db.nodes ==> HasBeenSwept(th, now, old(db.nodes)[id], db.nodes[id])
    ensures db.Contents() == Step(old(db.Contents()), Sweep(th, now))
    ensures old(Valid(db)) ==> Valid(db)
  {
    StaysSound(db.Contents(), Sweep(th, now));
    forall id | id in db.nodes ensures HasBeenSwept(th, now, db.nodes[id], SweptAll(th, now, db.nodes)[id]) {
      SweepMeans(th, now, db.nodes[id]);
    }
    SweepSettles(th, now, db.nodes, order);
    changed := SweepInOrder(db, th, order, now);
  }

  function SweptSome(th: Thresholds, now: int, nodes: map<NodeId, Node>, done: set<NodeId>): map<NodeId, Node> {
    map id | id in nodes :: if id in done then Swept(th, now, nodes[id]) else nodes[id]
  }

  lemma SweptOneMore(th: Thresholds, now: int, nodes: map<NodeId, Node>, done: set<NodeId>, id: NodeId)
    requires id in nodes && id !in done
    ensures SweptSome(th, now, nodes, done)[id] == nodes[id]
    ensures SweptSome(th, now, nodes, done)[id := Swept(th, now, nodes[id])] == SweptSome(th, now, nodes, done + {id})
  {
  }

  lemma AllSwept(th: Thresholds, now: int, nodes: map<NodeId, Node>, done: set<NodeId>)
    requires forall id :: id in nodes ==> id in done
    ensures SweptSome(th, now, nodes, done) == SweptAll(th, now, nodes)
  {
  }
}
