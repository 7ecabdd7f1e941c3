/**
 A run of the whole server: sessions on any number of sockets, dispatches, administration and
 sweeps, interleaved. What a dispatch reports about a node comes from that node.
 */
module Attribution {
  import opened Wrappers
  import opened Records
  import opened Gateway
  import opened PlaybackReports
  import M = Manager
  import P = Playback

  /** Who does something: the session on a socket, or the rest of the server. */
  datatype Actor = Peer(socket: M.Socket) | Rest

  datatype Deed = Deed(actor: Actor, action: Action)

  /** The run as the session on socket k sees it. */
  function View(run: seq<Deed>, k: M.Socket): seq<Act> {
    seq(|run|, (i: nat) requires i < |run| =>
      if run[i].actor == Peer(k) then Mine(run[i].action) else Theirs(run[i].action))
  }

  /** The server after the first i deeds. */
  function At(s: Server, run: seq<Deed>, i: nat): Server
    requires i <= |run|
  {
    if i == 0 then s else Apply(At(s, run, i - 1), run[i - 1].action)
  }

  lemma {:induction false} EveryViewRuns(s: Server, run: seq<Deed>, k: M.Socket, i: nat)
    requires i <= |run|
    ensures Gateway.Run(s, View(run, k)[..i]) == At(s, run, i)
  {
    if i > 0 {
      assert View(run, k)[..i][..i - 1] == View(run, k)[..i - 1];
      EveryViewRuns(s, run, k, i - 1);
    }
  }

  ghost predicate AllTheirs(acts: seq<Act>) {
    forall i :: 0 <= i < |acts| ==> acts[i].Theirs?
  }

  /** Socket k behaves like a session with these turns, up to some point of it or of what follows. */
  ghost predicate Carries(s: Server, run: seq<Deed>, k: M.Socket, turns: seq<Turn>, later: seq<Act>) {
    AllTheirs(later) && View(run, k) <= Whole(s, k, turns) + later
  }

  /** Socket k behaves like a session, which may be over or may still be going on. */
  ghost predicate IsSession(s: Server, run: seq<Deed>, k: M.Socket) {
    exists turns: seq<Turn>, later: seq<Act> :: Carries(s, run, k, turns, later)
  }

  /** The session on socket k has received this message. */
  ghost predicate Received(s: Server, run: seq<Deed>, k: M.Socket, e: Envelope) {
    exists turns: seq<Turn>, later: seq<Act> :: Carries(s, run, k, turns, later) && HasArrived(turns, e)
  }

  /** Every socket carries a session, and nothing else settles futures with messages. */
  ghost predicate MadeOfSessions(s: Server, run: seq<Deed>) {
    && (forall k :: IsSession(s, run, k))
    && (forall i :: 0 <= i < |run| && run[i].actor.Rest? ==> !(run[i].action.OnTable? && run[i].action.event.Resolve?))
  }

  /** Deed i is a message under that key, in a session whose HELLO, at h, had presented credentials
      that were the node's at that moment. */
  ghost predicate Authentic(s: Server, run: seq<Deed>, h: nat, i: nat, key: M.Key, ack: M.Ack) {
    && h < i < |run| && run[i].actor.Peer? && run[h].actor == run[i].actor
    && run[i].action == OnTable(M.Resolve(key, ack))
    && run[h].action.OnRegistry? && run[h].action.change.Hello? && run[h].action.change.node == key.node
    && key.node in At(s, run, h).registry.nodes
    && At(s, run, h).registry.nodes[key.node].secret == run[h].action.change.presented
  }

  /** Whatever settles a key of a node with a message is a message received in such a session. */
  lemma MessagesAreAuthentic(s: Server, run: seq<Deed>, i: nat, key: M.Key, ack: M.Ack)
    returns (h: nat, e: Envelope)
    requires MadeOfSessions(s, run) && i < |run| && run[i].action == OnTable(M.Resolve(key, ack))
    ensures Authentic(s, run, h, i, key, ack)
    ensures Received(s, run, run[i].actor.socket, e) && Acknowledges(e, key, ack)
  {
    var k := run[i].actor.socket;
    assert IsSession(s, run, k);
    var turns: seq<Turn>, later: seq<Act> :| Carries(s, run, k, turns, later);
    SpeaksOnlyForItself(s, k, turns);
    e := ReceivedFirst(s, run, k, turns, later, i, key, ack);
    h := SessionIsAuthentic(s, run, k, Whole(s, k, turns), later, Whose(Follow(s, k, turns).stage), i, key, ack);
  }

  lemma ReceivedFirst(s: Server, run: seq<Deed>, k: M.Socket, turns: seq<Turn>, later: seq<Act>,
                      i: nat, key: M.Key, ack: M.Ack) returns (e: Envelope)
    requires Carries(s, run, k, turns, later)
    requires i < |run| && run[i] == Deed(Peer(k), OnTable(M.Resolve(key, ack)))
    ensures Received(s, run, k, e) && Acknowledges(e, key, ack)
  {
    var at, view := Follow(s, k, turns), View(run, k);
    assert view[i] == Mine(run[i].action) && view[i] == (Whole(s, k, turns) + later)[i];
    assert i < |Whole(s, k, turns)| && Whole(s, k, turns)[i] == view[i];
    assert i < |at.acts| && at.acts[i] == view[i];
    e := AcknowledgementArrived(s, k, turns, i, key, ack);
  }

  lemma SessionIsAuthentic(s: Server, run: seq<Deed>, k: M.Socket, acts: seq<Act>, later: seq<Act>,
                           who: Option<NodeId>, i: nat, key: M.Key, ack: M.Ack) returns (h: nat)
    requires AllTheirs(later) && View(run, k) <= acts + later
    requires InTheNameOf(acts, who) && (who.Some? ==> Vouched(s, acts, who.value))
    requires i < |run| && run[i] == Deed(Peer(k), OnTable(M.Resolve(key, ack)))
    ensures Authentic(s, run, h, i, key, ack)
  {
    var view := View(run, k);
    assert view[i] == Mine(run[i].action) && view[i] == (acts + later)[i];
    assert i < |acts|;
    assert acts[i] == Mine(OnTable(M.Resolve(key, ack)));
    assert About(acts[i].action, who.value) && key.node == who.value;
    var g: nat, token, name, now :| VouchedAt(s, acts, g, who.value, token, name, now);
    assert g < i;
    h := g;
    assert view[h] == (acts + later)[h] == acts[h];
    assert acts[..h] == view[..h];
    EveryViewRuns(s, run, k, h);
  }

  // ----- What a dispatch sees of the run -----

  /** The events that happen to the table, except what the dispatch of request r does itself. */
  function Environment(run: seq<Deed>, r: M.RequestId): seq<M.Event> {
    if run == [] then []
    else
      var before, a := Environment(run[..|run| - 1], r), run[|run| - 1].action;
      if a.OnTable? && !P.Own(a.event, r) then before + [a.event] else before
  }

  lemma {:induction false} ComesFromRun(run: seq<Deed>, r: M.RequestId, j: nat) returns (i: nat)
    requires j < |Environment(run, r)|
    ensures i < |run| && run[i].action == OnTable(Environment(run, r)[j])
  {
    var before := run[..|run| - 1];
    if j < |Environment(before, r)| {
      i := ComesFromRun(before, r, j);
    } else {
      i := |run| - 1;
    }
  }

  /** A status that only a message can bring about. */
  predicate Heard(status: P.Status) {
    status.Started? || status.Stopped? || status.Failed? || status.Acknowledged?
  }

  /** What the node itself has said, whatever its envelope looks like. */
  predicate SaysSo(c: P.Command, status: P.Status, body: Body) {
    match c
    case Play =>
      && (status.Started? <==> body.Said? && body.message.PlaybackStarted?)
      && (status.Failed? <==> body.Failed? || (body.Said? && body.message.PlaybackError?))
      && (status.Acknowledged? <==>
            body.Said? && !body.message.PlaybackStarted? && !body.message.PlaybackError?)
    case Stop =>
      && (status.Stopped? <==> body.Said? && body.message.PlaybackStopped?)
      && (status.Failed? <==> body.Failed?)
      && (status.Acknowledged? <==> body.Said? && !body.message.PlaybackStopped?)
  }

  lemma AcknowledgementSaysSo(c: P.Command, e: Envelope, key: M.Key, ack: M.Ack)
    requires Acknowledges(e, key, ack)
    ensures SaysSo(c, P.FromAck(c, ack), e.body)
  {
  }

  /** End to end: when a dispatch that begins after the first b deeds, amid any number of sessions and
      other dispatches, reports that a node has started, stopped, failed or acknowledged, then that
      is what a message of the node with its request id said, after it began, in a session opened
      with that node's own credentials -- then or, as a rule, long before. */
  lemma ReportsAreAuthentic(s: Server, run: seq<Deed>, b: nat, c: P.Command, up: set<NodeId>, nodes: map<NodeId, bool>,
                            w: P.World, r: M.RequestId, nodeIds: seq<NodeId>, begin: int, timeout: nat, x: P.NodeResult)
    returns (h: nat, i: nat, ack: M.Ack, e: Envelope)
    requires MadeOfSessions(s, run) && b <= |run|
    requires w.env == Environment(run[b..], r) && |w.at| == |w.env|
    requires x in P.ReportFor(c, up, nodes, w, r, nodeIds, begin, timeout).results && Heard(x.status)
    ensures b <= i && Authentic(s, run, h, i, M.Key(x.node, r), ack)
    ensures Received(s, run, run[i].actor.socket, e) && Acknowledges(e, M.Key(x.node, r), ack)
    ensures SaysSo(c, x.status, e.body)
  {
    var j := HeardFromMessage(c, up, nodes, w, r, nodeIds, begin, timeout, x);
    ack := w.env[j].ack;
    var since := ComesFromRun(run[b..], r, j);
    i := b + since;
    assert run[i] == run[b..][since];
    h, e := MessagesAreAuthentic(s, run, i, M.Key(x.node, r), ack);
    AcknowledgementSaysSo(c, e, M.Key(x.node, r), ack);
  }

  lemma HeardFromMessage(c: P.Command, up: set<NodeId>, nodes: map<NodeId, bool>, w: P.World, r: M.RequestId,
                         nodeIds: seq<NodeId>, begin: int, timeout: nat, x: P.NodeResult) returns (j: nat)
    requires |w.at| == |w.env|
    requires x in P.ReportFor(c, up, nodes, w, r, nodeIds, begin, timeout).results && Heard(x.status)
    ensures j < |w.env| && w.env[j].Resolve? && w.env[j].key == M.Key(x.node, r)
    ensures x.status == P.FromAck(c, w.env[j].ack)
  {
    var p := P.PlanFor(c, up, nodes, w, P.Dedup(nodeIds));
    var start := P.Clock(w, begin, p.cursor);
    var answers := P.Collect(c, w, r, p.sent, start, timeout).results;
    PlanAwaitsNothing(c, up, nodes, w, P.Dedup(nodeIds));
    assert x !in p.immediate;
    CollectTakesRecurrence(c, w, r, p.sent, start, timeout, |p.sent|);
    assert p.sent[..|p.sent|] == p.sent;
    var k :| 0 <= k < |answers| && answers[k] == x;
    assert answers[k] == ResultAt(c, w, r, p.sent, start, timeout, k);
    j := P.Answer(w, r, p.sent[k]).value;
  }
}
