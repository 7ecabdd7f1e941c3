/**
 What a status in a report means: which node is sent to and why another is not, and what each reply
 stands for.
 */
module PlaybackLaws {
  import opened Wrappers
  import opened Manager
  import opened Playback
  import opened PlaybackReports

  // ----- Replies -----

  /** A play reply: PLAYBACK_STARTED is the start, an error says why, anything else is noted. */
  predicate PlayMeans(status: Status, ack: Ack) {
    && (status.Started? <==> ack.messageType == "PLAYBACK_STARTED")
    && (status.Failed? <==> ack.messageType == "PLAYBACK_ERROR" || ack.messageType == "ERROR")
    && (status.Failed? ==>
          status.message == if "errorMessage" in ack.payload then ack.payload["errorMessage"]
                            else "Node reported a playback error")
    && (status.Acknowledged? <==>
          ack.messageType != "PLAYBACK_STARTED" && ack.messageType != "PLAYBACK_ERROR" && ack.messageType != "ERROR")
  }

  /** A stop reply: PLAYBACK_STOPPED is the end, an ERROR says why not, anything else is noted. */
  predicate StopMeans(status: Status, ack: Ack) {
    && (status.Stopped? <==> ack.messageType == "PLAYBACK_STOPPED")
    && (status.Failed? <==> ack.messageType == "ERROR")
    && (status.Failed? ==>
          status.message == if "errorMessage" in ack.payload then ack.payload["errorMessage"]
                            else "Node rejected the stop command")
    && (status.Acknowledged? <==> ack.messageType != "PLAYBACK_STOPPED" && ack.messageType != "ERROR")
  }

  predicate Means(c: Command, status: Status, ack: Ack) {
    match c case Play => PlayMeans(status, ack) case Stop => StopMeans(status, ack)
  }

  /** Event j is the first, after the command went out, to settle what became of it. */
  ghost predicate Settles(w: World, r: RequestId, x: Sent, j: nat) {
    && x.created <= j < |w.env| && Decides(w.env[j], Key(x.node, r))
    && forall h :: x.created <= h < j ==> !Decides(w.env[h], Key(x.node, r))
  }

  /** An awaited node is reported by what its message says if that comes first and in time, and as
      timed out otherwise. */
  lemma ResultMeans(c: Command, w: World, r: RequestId, sent: seq<Sent>, start: int, timeout: nat, i: nat, j: nat)
    requires |w.at| == |w.env| && i < |sent|
    requires forall i :: 0 <= i < |sent| ==> sent[i].created <= |w.env|
    requires Settles(w, r, sent[i], j)
    ensures var results := Collect(c, w, r, sent, start, timeout).results;
            var deadline := EndOf(Arrivals(w, r, sent), i, start, timeout) + timeout;
            && |results| == |sent| && results[i].node == sent[i].node
            && if w.env[j].Resolve? && w.at[j] <= deadline then Means(c, results[i].status, w.env[j].ack)
               else results[i].status.TimedOut?
  {
    ReportedFromFirstMessage(c, w, r, sent, start, timeout, i, j);
  }

  predicate SomeStarted(results: seq<NodeResult>) {
    exists i :: 0 <= i < |results| && results[i].status.Started?
  }

  /** The i-th awaited node's first decisive event is a PLAYBACK_STARTED, by the deadline of its wait. */
  ghost predicate StartedBy(w: World, r: RequestId, sent: seq<Sent>, start: int, timeout: nat, i: nat, j: nat)
    requires |w.at| == |w.env| && forall i :: 0 <= i < |sent| ==> sent[i].created <= |w.env|
  {
    && i < |sent| && Settles(w, r, sent[i], j)
    && w.env[j].Resolve? && w.env[j].ack.messageType == "PLAYBACK_STARTED"
    && w.at[j] <= EndOf(Arrivals(w, r, sent), i, start, timeout) + timeout
  }

  lemma StartedResult(w: World, r: RequestId, sent: seq<Sent>, start: int, timeout: nat, i: nat) returns (j: nat)
    requires |w.at| == |w.env| && i < |sent|
    requires forall i :: 0 <= i < |sent| ==> sent[i].created <= |w.env|
    requires i < |Collect(Play, w, r, sent, start, timeout).results|
    requires Collect(Play, w, r, sent, start, timeout).results[i].status.Started?
    ensures StartedBy(w, r, sent, start, timeout, i, j)
  {
    CollectTakesRecurrence(Play, w, r, sent, start, timeout, |sent|);
    assert sent[..|sent|] == sent;
    assert Collect(Play, w, r, sent, start, timeout).results[i] == ResultAt(Play, w, r, sent, start, timeout, i);
    j := Answer(w, r, sent[i]).value;
    ResultMeans(Play, w, r, sent, start, timeout, i, j);
  }

  ghost predicate AnyStarted(w: World, r: RequestId, sent: seq<Sent>, start: int, timeout: nat)
    requires |w.at| == |w.env| && forall i :: 0 <= i < |sent| ==> sent[i].created <= |w.env|
  {
    exists i: nat, j: nat :: StartedBy(w, r, sent, start, timeout, i, j)
  }

  lemma StartedAmongAnswers(w: World, r: RequestId, sent: seq<Sent>, start: int, timeout: nat)
    requires |w.at| == |w.env| && forall i :: 0 <= i < |sent| ==> sent[i].created <= |w.env|
    ensures SomeStarted(Collect(Play, w, r, sent, start, timeout).results) <==> AnyStarted(w, r, sent, start, timeout)
  {
    var answers := Collect(Play, w, r, sent, start, timeout).results;
    CollectAccounts(Play, w, r, sent, start, timeout);
    IdsAt(answers);
    NodesAt(sent);
    if SomeStarted(answers) {
      var i :| 0 <= i < |answers| && answers[i].status.Started?;
      var j := StartedResult(w, r, sent, start, timeout, i);
    }
    forall i: nat, j: nat | StartedBy(w, r, sent, start, timeout, i, j) ensures SomeStarted(answers) {
      ResultMeans(Play, w, r, sent, start, timeout, i, j);
    }
  }

  lemma StartedLater(a: seq<NodeResult>, b: seq<NodeResult>)
    requires NoneAwaited(a)
    ensures SomeStarted(a + b) <==> SomeStarted(b)
  {
    if SomeStarted(b) {
      var i :| 0 <= i < |b| && b[i].status.Started?;
      assert (a + b)[|a| + i] == b[i];
    }
  }

  /** Some node is reported as started exactly if some node's PLAYBACK_STARTED came first and in time. */
  lemma SomeStartedIff(up: set<NodeId>, nodes: map<NodeId, bool>, w: World, r: RequestId,
                       nodeIds: seq<NodeId>, begin: int, timeout: nat)
    requires |w.at| == |w.env|
    ensures var p := PlanFor(Play, up, nodes, w, Dedup(nodeIds));
            && (SomeStarted(ReportFor(Play, up, nodes, w, r, nodeIds, begin, timeout).results) <==>
                AnyStarted(w, r, p.sent, Clock(w, begin, p.cursor), timeout))
  {
    var p := PlanFor(Play, up, nodes, w, Dedup(nodeIds));
    var start := Clock(w, begin, p.cursor);
    PlanAwaitsNothing(Play, up, nodes, w, Dedup(nodeIds));
    StartedLater(p.immediate, Collect(Play, w, r, p.sent, start, timeout).results);
    StartedAmongAnswers(w, r, p.sent, start, timeout);
  }

  // ----- Who is sent to -----

  /** Only a play command passes over nodes that are disabled. */
  predicate Eligible(c: Command, nodes: map<NodeId, bool>, n: NodeId) {
    n in nodes && (c.Stop? || nodes[n])
  }

  /** Of the connects and disconnects of n among the first q events the last is a connect; or there is
      none, and n was connected before. */
  ghost predicate ConnectedAt(up: set<NodeId>, env: seq<Event>, q: nat, n: NodeId)
    requires q <= |env|
  {
    || (exists i :: 0 <= i < q && env[i].Connect? && env[i].node == n && forall j :: i < j < q ==> !Moves(env[j], n))
    || (n in up && forall j :: 0 <= j < q ==> !Moves(env[j], n))
  }

  lemma {:induction false} UpIffConnected(up: set<NodeId>, env: seq<Event>, q: nat, n: NodeId)
    requires q <= |env|
    ensures Up(up, env, q, n) <==> ConnectedAt(up, env, q, n)
  {
    if q > 0 {
      UpIffConnected(up, env, q - 1, n);
      if !Moves(env[q - 1], n) {
        assert ConnectedAt(up, env, q, n) <==> ConnectedAt(up, env, q - 1, n);
      }
    }
  }

  /** How many events have happened when the i-th node's turn comes: only sends take any. */
  ghost function TurnOf(c: Command, up: set<NodeId>, nodes: map<NodeId, bool>, w: World, ids: seq<NodeId>, i: nat)
    : (q: nat)
    requires i <= |ids|
    ensures q <= |w.env|
  {
    if i == 0 then 0
    else
      var q, n := TurnOf(c, up, nodes, w, ids, i - 1), ids[i - 1];
      if Eligible(c, nodes, n) && ConnectedAt(up, w.env, q, n) then Min(q + w.send(n).during, |w.env|) else q
  }

  ghost predicate Reachable(c: Command, up: set<NodeId>, nodes: map<NodeId, bool>, w: World, ids: seq<NodeId>, i: nat)
    requires i < |ids|
  {
    Eligible(c, nodes, ids[i]) && ConnectedAt(up, w.env, TurnOf(c, up, nodes, w, ids, i), ids[i])
  }

  /** The command goes out to the i-th node. */
  ghost predicate GoesOut(c: Command, up: set<NodeId>, nodes: map<NodeId, bool>, w: World, ids: seq<NodeId>, i: nat)
    requires i < |ids|
  {
    Reachable(c, up, nodes, w, ids, i) && w.send(ids[i]).ok
  }

  /** What the i-th node's status says about why it was or was not sent to. */
  ghost predicate Explained(c: Command, up: set<NodeId>, nodes: map<NodeId, bool>, w: World, ids: seq<NodeId>,
                            i: nat, status: Status)
    requires i < |ids|
  {
    && (status.Missing? <==> ids[i] !in nodes)
    && (status.Disabled? <==> c.Play? && ids[i] in nodes && !nodes[ids[i]])
    && (status.Offline? <==> Eligible(c, nodes, ids[i]) && !Reachable(c, up, nodes, w, ids, i))
    && (status.SendFailed? <==> Reachable(c, up, nodes, w, ids, i) && !w.send(ids[i]).ok)
    && (GoesOut(c, up, nodes, w, ids, i) <==>
          status.Started? || status.Stopped? || status.Failed? || status.Acknowledged? || status.TimedOut?)
  }

  ghost predicate SentExplained(c: Command, up: set<NodeId>, nodes: map<NodeId, bool>, w: World, ids: seq<NodeId>,
                                i: nat, x: Sent)
    requires i < |ids|
  {
    x == Sent(ids[i], TurnOf(c, up, nodes, w, ids, i)) && GoesOut(c, up, nodes, w, ids, i)
  }

  /** Everything in the plan for the first m nodes is explained by one of them. */
  ghost predicate PlanExplained(c: Command, up: set<NodeId>, nodes: map<NodeId, bool>, w: World, ids: seq<NodeId>,
                                m: nat, p: Plan)
    requires m <= |ids|
  {
    && p.cursor == TurnOf(c, up, nodes, w, ids, m)
    && (forall x :: x in p.immediate ==>
          exists i :: 0 <= i < m && x.node == ids[i] && Explained(c, up, nodes, w, ids, i, x.status))
    && (forall x :: x in p.sent ==> exists i :: 0 <= i < m && SentExplained(c, up, nodes, w, ids, i, x))
  }

  lemma VisitExplained(c: Command, up: set<NodeId>, nodes: map<NodeId, bool>, w: World, ids: seq<NodeId>,
                       m: nat, q: nat)
    requires m < |ids| && q == TurnOf(c, up, nodes, w, ids, m)
    ensures var v := Visit(c, up, nodes, w, q, ids[m]);
            && v.cursor == TurnOf(c, up, nodes, w, ids, m + 1)
            && (v.Reported? ==> Explained(c, up, nodes, w, ids, m, v.status))
            && (v.Dispatched? ==> SentExplained(c, up, nodes, w, ids, m, Sent(ids[m], q)))
  {
    UpIffConnected(up, w.env, q, ids[m]);
  }

  lemma AddExplained(c: Command, up: set<NodeId>, nodes: map<NodeId, bool>, w: World, ids: seq<NodeId>, m: nat, p: Plan)
    requires m < |ids| && PlanExplained(c, up, nodes, w, ids, m, p)
    ensures PlanExplained(c, up, nodes, w, ids, m + 1, AddTo(p, ids[m], Visit(c, up, nodes, w, p.cursor, ids[m])))
  {
    VisitExplained(c, up, nodes, w, ids, m, p.cursor);
  }

  lemma {:induction false} PlanIsExplained(c: Command, up: set<NodeId>, nodes: map<NodeId, bool>, w: World,
                                           ids: seq<NodeId>, m: nat)
    requires m <= |ids|
    ensures PlanExplained(c, up, nodes, w, ids, m, PlanFor(c, up, nodes, w, ids[..m]))
  {
    if m > 0 {
      PlanIsExplained(c, up, nodes, w, ids, m - 1);
      PlanNext(c, up, nodes, w, ids, m - 1);
      AddExplained(c, up, nodes, w, ids, m - 1, PlanFor(c, up, nodes, w, ids[..m - 1]));
    }
  }

  /** For every node of the request: its status says truly why it was or was not sent to, and it is
      logged exactly if the command went out to it. */
  ghost predicate ReportExplained(c: Command, up: set<NodeId>, nodes: map<NodeId, bool>, w: World,
                                  ids: seq<NodeId>, report: Report) {
    forall i, x :: 0 <= i < |ids| && x in report.results && x.node == ids[i] ==>
      && Explained(c, up, nodes, w, ids, i, x.status)
      && (ids[i] in report.logged <==> GoesOut(c, up, nodes, w, ids, i))
  }

  lemma ReportIsExplained(c: Command, up: set<NodeId>, nodes: map<NodeId, bool>, w: World, r: RequestId,
                          nodeIds: seq<NodeId>, begin: int, timeout: nat)
    requires |w.at| == |w.env|
    ensures ReportExplained(c, up, nodes, w, Dedup(nodeIds), ReportFor(c, up, nodes, w, r, nodeIds, begin, timeout))
  {
    var ids, report := Dedup(nodeIds), ReportFor(c, up, nodes, w, r, nodeIds, begin, timeout);
    forall i, x | 0 <= i < |ids| && x in report.results && x.node == ids[i]
      ensures Explained(c, up, nodes, w, ids, i, x.status)
      ensures ids[i] in report.logged <==> GoesOut(c, up, nodes, w, ids, i)
    {
      ResultIsExplained(c, up, nodes, w, r, nodeIds, begin, timeout, i, x);
      LoggedIfAwaited(c, up, nodes, w, r, nodeIds, begin, timeout, x);
    }
  }

  lemma LoggedIfAwaited(c: Command, up: set<NodeId>, nodes: map<NodeId, bool>, w: World, r: RequestId,
                        nodeIds: seq<NodeId>, begin: int, timeout: nat, x: NodeResult)
    requires |w.at| == |w.env| && x in ReportFor(c, up, nodes, w, r, nodeIds, begin, timeout).results
    ensures x.node in ReportFor(c, up, nodes, w, r, nodeIds, begin, timeout).logged <==> Awaited(x.status)
  {
    ResultsAccountForEveryNode(c, up, nodes, w, r, nodeIds, begin, timeout);
  }

  lemma ResultIsExplained(c: Command, up: set<NodeId>, nodes: map<NodeId, bool>, w: World, r: RequestId,
                          nodeIds: seq<NodeId>, begin: int, timeout: nat, i: nat, x: NodeResult)
    requires |w.at| == |w.env| && i < |Dedup(nodeIds)| && x.node == Dedup(nodeIds)[i]
    requires x in ReportFor(c, up, nodes, w, r, nodeIds, begin, timeout).results
    ensures Explained(c, up, nodes, w, Dedup(nodeIds), i, x.status)
  {
    var ids := Dedup(nodeIds);
    var p := PlanFor(c, up, nodes, w, ids);
    var answers := Collect(c, w, r, p.sent, Clock(w, begin, p.cursor), timeout).results;
    assert ids[..|ids|] == ids;
    PlanIsExplained(c, up, nodes, w, ids, |ids|);
    if x in p.immediate {
      var k :| 0 <= k < |ids| && x.node == ids[k] && Explained(c, up, nodes, w, ids, k, x.status);
      assert k == i;
    } else {
      AnswerIsExplained(c, up, nodes, w, r, ids, p, answers, begin, timeout, i, x);
    }
  }

  lemma AnswerIsExplained(c: Command, up: set<NodeId>, nodes: map<NodeId, bool>, w: World, r: RequestId,
                          ids: seq<NodeId>, p: Plan, answers: seq<NodeResult>, begin: int, timeout: nat,
                          i: nat, x: NodeResult)
    requires |w.at| == |w.env| && NoRepeats(ids) && i < |ids| && x.node == ids[i]
    requires p == PlanFor(c, up, nodes, w, ids) && PlanExplained(c, up, nodes, w, ids, |ids|, p)
    requires answers == Collect(c, w, r, p.sent, Clock(w, begin, p.cursor), timeout).results && x in answers
    ensures Explained(c, up, nodes, w, ids, i, x.status)
  {
    CollectAccounts(c, w, r, p.sent, Clock(w, begin, p.cursor), timeout);
    IdsAt(answers);
    NodesAt(p.sent);
    var a :| 0 <= a < |answers| && answers[a] == x;
    assert p.sent[a].node == x.node && p.sent[a] in p.sent;
    var k :| 0 <= k < |ids| && SentExplained(c, up, nodes, w, ids, k, p.sent[a]);
    assert k == i;
    assert Awaited(x.status);
  }
}
