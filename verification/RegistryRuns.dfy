/**
 What the node and enrollment tables keep over whole runs, with requests, expiry, approvals --
 also ones cut off between their two commits --, rejections, manual provisioning, HELLOs,
 messages, disconnects and sweeps in any order.
 */
module RegistryRuns {
  import opened Wrappers
  import opened Records
  import opened Nodes
  import opened Enrollments

  datatype Event =
    | Provision(provisioning: Provisioning, token: string)
    | ResetRuntime
    | Hello(node: NodeId, presented: string, displayName: string, now: int)
    | Report(node: NodeId, message: Message, now: int)
    | SetEnabled(node: NodeId, enabled: bool)
    | SetAutoplaySelected(node: NodeId, selected: bool)
    | Disconnected(node: NodeId)
    | Sweep(thresholds: Thresholds, now: int)
    | RequestEnroll(request: Request)
    | Read(id: nat, now: int)
    | List(filter: Option<EnrollmentStatus>, now: int)
    | Approve(id: nat, approval: Approval)
    | ApproveCutOff(id: nat, approval: Approval)   // the process ends between the two commits
    | Reject(id: nat, reason: Option<string>, now: int)
    | Poll(id: nat, code: string, now: int)

  /** What an event about one node does to its row. */
  function Touched(e: Event, n: Node): Node {
    match e
    case Report(_, m, now) => Reported(n, m, now)
    case SetEnabled(_, b) => n.(enabled := b)
    case SetAutoplaySelected(_, b) => n.(autoplaySelected := b)
    case Disconnected(_) => Idle(n)
    case _ => n
  }

  function OnNode(s: State, id: NodeId, e: Event): State {
    if id in s.nodes then s.(nodes := s.nodes[id := Touched(e, s.nodes[id])]) else s
  }

  function Step(s: State, e: Event): State {
    match e
    case Provision(p, token) => Provisioned(s, p, token)
    case ResetRuntime => s.(nodes := map id | id in s.nodes :: Idle(s.nodes[id]))
    case Hello(node, presented, displayName, now) =>
      if node in s.nodes && s.nodes[node].secret == presented
      then State(s.nodes[node := Greeted(s.nodes[node], displayName, now)], Claimed(s.enrollments, node, now))
      else s
    case Report(node, _, _) => OnNode(s, node, e)
    case SetEnabled(node, _) => OnNode(s, node, e)
    case SetAutoplaySelected(node, _) => OnNode(s, node, e)
    case Disconnected(node) => OnNode(s, node, e)
    case Sweep(th, now) => s.(nodes := SweptAll(th, now, s.nodes))
    case RequestEnroll(r) => Requested(s, r)
    case Read(i, now) => ReadRow(s, i, now)
    case List(filter, now) => s.(enrollments := MarkListed(s.enrollments, filter, now))
    case Approve(i, a) =>
      if StillPending(s, i, a.now) then Approves(ReadRow(s, i, a.now), i, a) else ReadRow(s, i, a.now)
    case ApproveCutOff(i, a) =>
      if StillPending(s, i, a.now) then ApprovalProvisions(ReadRow(s, i, a.now), i, a) else ReadRow(s, i, a.now)
    case Reject(i, reason, now) =>
      if StillPending(s, i, now) then Rejects(ReadRow(s, i, now), i, reason, now) else ReadRow(s, i, now)
    case Poll(i, code, now) =>
      var t := ReadRow(s, i, now);
      if i < |t.enrollments| then Polled(t, i, code, now) else t
  }

  function Run(s: State, es: seq<Event>): State {
    if es == [] then s else Step(Run(s, es[..|es| - 1]), es[|es| - 1])
  }

  // ----- Invariants -----

  predicate Live(e: Enrollment) {
    e.status.Pending? || e.status.Approved? || e.status.Enrolled?
  }

  /** At most one enrollment of a node is pending, approved or enrolled. */
  ghost predicate OneLivePerNode(es: seq<Enrollment>) {
    forall i, j :: 0 <= i < j < |es| && Live(es[i]) && Live(es[j]) ==> es[i].node != es[j].node
  }

  /** Approved and enrolled nodes exist. */
  ghost predicate GrantedExist(s: State) {
    forall i :: 0 <= i < |s.enrollments| && Live(s.enrollments[i]) && !s.enrollments[i].status.Pending? ==>
      s.enrollments[i].node in s.nodes
  }

  /** The one-time token is there exactly while an enrollment is approved; the claim is recorded
      by the time it is enrolled, and never on anything that was not approved. */
  predicate RowSound(e: Enrollment) {
    && (e.token.Some? <==> e.status.Approved?)
    && (e.status.Enrolled? ==> e.claimedAt.Some?)
    && (e.claimedAt.Some? ==> e.status.Approved? || e.status.Enrolled?)
  }

  ghost predicate RowsSound(es: seq<Enrollment>) {
    forall i :: 0 <= i < |es| ==> RowSound(es[i])
  }

  /** A node that counts as offline is idle and plays nothing. */
  ghost predicate OfflineIsIdle(nodes: map<NodeId, Node>) {
    forall id :: id in nodes && nodes[id].connection.Offline? ==>
      nodes[id].operational == "idle" && nodes[id].spot.None?
  }

  ghost predicate Sound(s: State) {
    OneLivePerNode(s.enrollments) && GrantedExist(s) && RowsSound(s.enrollments) && OfflineIsIdle(s.nodes)
  }

  /** How one enrollment row may change: forwards, keeping its node and any claim it carries. */
  predicate Forward(a: Enrollment, b: Enrollment) {
    && b.node == a.node
    && (|| b.status == a.status
        || a.status.Pending?
        || (a.status.Approved? && b.status.Enrolled?))
    && (a.claimedAt.Some? ==> b.claimedAt == a.claimedAt)
  }

  ghost predicate AllForward(a: seq<Enrollment>, b: seq<Enrollment>) {
    |a| <= |b| && forall i :: 0 <= i < |a| ==> Forward(a[i], b[i])
  }

  /** What a step from s to t keeps. */
  ghost predicate Kept(s: State, t: State) {
    Sound(t) && AllForward(s.enrollments, t.enrollments)
  }

  // ----- One row at a time -----

  /** Changing one live row into another row of the same node, or into a closed one. */
  lemma RowChange(es: seq<Enrollment>, i: nat, e: Enrollment)
    requires OneLivePerNode(es) && RowsSound(es) && i < |es|
    requires e.node == es[i].node && (Live(e) ==> Live(es[i])) && RowSound(e)
    ensures OneLivePerNode(es[i := e]) && RowsSound(es[i := e])
  {
  }

  lemma NodeStaysSound(nodes: map<NodeId, Node>, id: NodeId, n: Node)
    requires OfflineIsIdle(nodes)
    requires n.connection.Offline? ==> n.operational == "idle" && n.spot.None?
    ensures OfflineIsIdle(nodes[id := n])
  {
  }

  lemma ProvisionedSound(s: State, p: Provisioning, token: string)
    requires Sound(s)
    ensures Sound(Provisioned(s, p, token))
    ensures Provisioned(s, p, token).nodes.Keys == s.nodes.Keys + {p.node}
  {
    NodeStaysSound(s.nodes, p.node, Provisioned(s, p, token).nodes[p.node]);
  }

  lemma ReadSound(s: State, i: nat, now: int)
    requires Sound(s)
    ensures Sound(ReadRow(s, i, now)) && AllForward(s.enrollments, ReadRow(s, i, now).enrollments)
    ensures ReadRow(s, i, now).nodes == s.nodes
  {
    if i < |s.enrollments| {
      RowChange(s.enrollments, i, MarkExpired(s.enrollments[i], now));
    }
  }

  lemma HelloSound(s: State, node: NodeId, displayName: string, now: int)
    requires Sound(s) && node in s.nodes
    ensures var t := State(s.nodes[node := Greeted(s.nodes[node], displayName, now)],
                           Claimed(s.enrollments, node, now));
            Sound(t) && AllForward(s.enrollments, t.enrollments)
  {
    NodeStaysSound(s.nodes, node, Greeted(s.nodes[node], displayName, now));
    var latest := LatestWith(s.enrollments, node, EnrollmentStatus.Approved);
    if latest.Some? {
      RowChange(s.enrollments, latest.value, Claimed(s.enrollments, node, now)[latest.value]);
    }
  }

  lemma RequestSound(s: State, r: Request)
    requires Sound(s)
    ensures Sound(Requested(s, r)) && AllForward(s.enrollments, Requested(s, r).enrollments)
  {
    if r.node !in s.nodes {
      var pending := LatestWith(s.enrollments, r.node, EnrollmentStatus.Pending);
      if pending.Some? {
        RowChange(s.enrollments, pending.value, Requested(s, r).enrollments[pending.value]);
      } else {
        assert forall j :: 0 <= j < |s.enrollments| && s.enrollments[j].node == r.node ==> !Live(s.enrollments[j]);
      }
    }
  }

  lemma ApproveSound(s: State, i: nat, a: Approval)
    requires Sound(s) && i < |s.enrollments| && s.enrollments[i].status.Pending?
    ensures Sound(ApprovalProvisions(s, i, a)) && ApprovalProvisions(s, i, a).enrollments == s.enrollments
    ensures Sound(Approves(s, i, a)) && AllForward(s.enrollments, Approves(s, i, a).enrollments)
  {
    var e := s.enrollments[i];
    ProvisionedSound(s, Provisioning(e.node, NameFor(a, e), a.enabled, a.autoplaySelected), a.token);
    RowChange(s.enrollments, i, Approves(s, i, a).enrollments[i]);
  }

  lemma RejectSound(s: State, i: nat, reason: Option<string>, now: int)
    requires Sound(s) && i < |s.enrollments| && s.enrollments[i].status.Pending?
    ensures Sound(Rejects(s, i, reason, now)) && AllForward(s.enrollments, Rejects(s, i, reason, now).enrollments)
  {
    RowChange(s.enrollments, i, Rejects(s, i, reason, now).enrollments[i]);
  }

  lemma PollSound(s: State, i: nat, code: string, now: int)
    requires Sound(s) && i < |s.enrollments|
    ensures Sound(Polled(s, i, code, now)) && AllForward(s.enrollments, Polled(s, i, code, now).enrollments)
  {
    RowChange(s.enrollments, i, Polled(s, i, code, now).enrollments[i]);
  }

  lemma ListSound(s: State, filter: Option<EnrollmentStatus>, now: int)
    requires Sound(s)
    ensures var t := s.(enrollments := MarkListed(s.enrollments, filter, now));
            Sound(t) && AllForward(s.enrollments, t.enrollments)
  {
  }

  lemma OnNodeSound(s: State, id: NodeId, e: Event)
    requires Sound(s)
    ensures Sound(OnNode(s, id, e)) && OnNode(s, id, e).enrollments == s.enrollments
  {
    if id in s.nodes { NodeStaysSound(s.nodes, id, Touched(e, s.nodes[id])); }
  }

  lemma ApprovalSound(s: State, i: nat, a: Approval)
    requires Sound(s)
    ensures Kept(s, Step(s, Approve(i, a))) && Kept(s, Step(s, ApproveCutOff(i, a)))
  {
    ReadSound(s, i, a.now);
    if StillPending(s, i, a.now) {
      var t := ReadRow(s, i, a.now);
      ApproveSound(t, i, a);
      ForwardTwice(s.enrollments, t.enrollments, Approves(t, i, a).enrollments);
    }
  }

  lemma RejectionSound(s: State, i: nat, reason: Option<string>, now: int)
    requires Sound(s)
    ensures Kept(s, Step(s, Reject(i, reason, now)))
  {
    ReadSound(s, i, now);
    if StillPending(s, i, now) {
      var t := ReadRow(s, i, now);
      RejectSound(t, i, reason, now);
      ForwardTwice(s.enrollments, t.enrollments, Rejects(t, i, reason, now).enrollments);
    }
  }

  lemma PollingSound(s: State, i: nat, code: string, now: int)
    requires Sound(s)
    ensures Kept(s, Step(s, Poll(i, code, now)))
  {
    ReadSound(s, i, now);
    var t := ReadRow(s, i, now);
    if i < |t.enrollments| {
      PollSound(t, i, code, now);
      ForwardTwice(s.enrollments, t.enrollments, Polled(t, i, code, now).enrollments);
    }
  }

  lemma ForwardTwice(a: seq<Enrollment>, b: seq<Enrollment>, c: seq<Enrollment>)
    requires AllForward(a, b) && AllForward(b, c)
    ensures AllForward(a, c)
  {
    forall i | 0 <= i < |a| ensures Forward(a[i], c[i]) {
      assert Forward(a[i], b[i]) && Forward(b[i], c[i]);
    }
  }

  /** Every operation of the two services keeps all of it. */
  lemma StepSound(s: State, e: Event)
    requires Sound(s)
    ensures Kept(s, Step(s, e))
  {
    match e
    case Provision(p, token) => ProvisionedSound(s, p, token);
    case ResetRuntime =>
    case Hello(node, presented, displayName, now) =>
      if node in s.nodes && s.nodes[node].secret == presented { HelloSound(s, node, displayName, now); }
    case Sweep(th, now) =>
    case RequestEnroll(r) => RequestSound(s, r);
    case Read(i, now) => ReadSound(s, i, now);
    case List(filter, now) => ListSound(s, filter, now);
    case Approve(i, a) => ApprovalSound(s, i, a);
    case ApproveCutOff(i, a) => ApprovalSound(s, i, a);
    case Reject(i, reason, now) => RejectionSound(s, i, reason, now);
    case Poll(i, code, now) => PollingSound(s, i, code, now);
    case _ => OnNodeSound(s, e.node, e);
  }

  lemma StaysSound(s: State, e: Event)
    ensures Sound(s) ==> Sound(Step(s, e))
  {
    if Sound(s) { StepSound(s, e); }
  }

  /** The edges of the enrollment state machine. */
  predicate Edge(a: EnrollmentStatus, b: EnrollmentStatus) {
    || b == a
    || (a.Pending? && (b.Approved? || b.Rejected? || b.Expired?))
    || (a.Approved? && b.Enrolled?)
  }

  /** From any state at all, one operation moves each enrollment along one edge, and what it adds is
      pending. */
  lemma StepTakesEdges(s: State, e: Event)
    ensures |s.enrollments| <= |Step(s, e).enrollments|
    ensures forall i :: 0 <= i < |s.enrollments| ==> Edge(s.enrollments[i].status, Step(s, e).enrollments[i].status)
    ensures forall i :: |s.enrollments| <= i < |Step(s, e).enrollments| ==> Step(s, e).enrollments[i].status.Pending?
  {
    match e
    case List(filter, now) =>
    case Hello(node, presented, displayName, now) =>
    case RequestEnroll(r) =>
    case _ =>
  }

  /** Over every run: at most one live enrollment per node, granted ones have their node, tokens
      are there exactly while approved, offline means idle; and no row ever goes backwards or
      has its claim rewritten. */
  lemma {:induction false} RunSound(s: State, es: seq<Event>)
    requires Sound(s)
    ensures Sound(Run(s, es)) && AllForward(s.enrollments, Run(s, es).enrollments)
  {
    if es != [] {
      RunSound(s, es[..|es| - 1]);
      var t := Run(s, es[..|es| - 1]);
      StepSound(t, es[|es| - 1]);
      ForwardTwice(s.enrollments, t.enrollments, Run(s, es).enrollments);
    }
  }

  // ----- What follows -----

  function LiveCount(es: seq<Enrollment>, node: NodeId): nat {
    if es == [] then 0
    else LiveCount(es[..|es| - 1], node) + (if Live(es[|es| - 1]) && es[|es| - 1].node == node then 1 else 0)
  }

  lemma {:induction false} NoneLive(es: seq<Enrollment>, node: NodeId)
    requires forall i :: 0 <= i < |es| ==> !(Live(es[i]) && es[i].node == node)
    ensures LiveCount(es, node) == 0
  {
    if es != [] { NoneLive(es[..|es| - 1], node); }
  }

  lemma {:induction false} AtMostOneLive(es: seq<Enrollment>, node: NodeId)
    requires OneLivePerNode(es)
    ensures LiveCount(es, node) <= 1
  {
    if es != [] {
      var before := es[..|es| - 1];
      if Live(es[|es| - 1]) && es[|es| - 1].node == node {
        NoneLive(before, node);
      } else {
        AtMostOneLive(before, node);
      }
    }
  }

  /** Counted: from an empty server, in every reachable state and for every node id. */
  lemma OneEnrollmentAtATime(es: seq<Event>, node: NodeId)
    ensures LiveCount(Run(State(map[], []), es).enrollments, node) <= 1
  {
    RunSound(State(map[], []), es);
    AtMostOneLive(Run(State(map[], []), es).enrollments, node);
  }

  /** An approval cut off between its commits leaves the request pending and the node in place, so
      it can be approved again, with the effect it would have had. */
  lemma CutOffApprovalCanBeRepeated(s: State, i: nat, first: Approval, again: Approval)
    requires Sound(s) && StillPending(s, i, first.now) && StillPending(s, i, again.now)
    ensures var t := Step(s, ApproveCutOff(i, first));
            && t.enrollments == s.enrollments && s.enrollments[i].node in t.nodes
            && StillPending(t, i, again.now)
            && Step(t, Approve(i, again)).enrollments == Step(s, Approve(i, again)).enrollments
            && Step(t, Approve(i, again)).nodes[s.enrollments[i].node].secret == again.token
  {
    assert s.enrollments[i := s.enrollments[i]] == s.enrollments;
  }

  /** A rejected or expired enrollment is closed for good. */
  lemma {:induction false} ClosedForGood(s: State, es: seq<Event>, i: nat)
    requires Sound(s) && i < |s.enrollments|
    requires s.enrollments[i].status.Rejected? || s.enrollments[i].status.Expired?
    ensures i < |Run(s, es).enrollments| && Run(s, es).enrollments[i].status == s.enrollments[i].status
    ensures Run(s, es).enrollments[i].token.None? && Run(s, es).enrollments[i].claimedAt.None?
  {
    RunSound(s, es);
    assert Forward(s.enrollments[i], Run(s, es).enrollments[i]);
    assert RowSound(Run(s, es).enrollments[i]);
  }

  // ----- The token an approval hands out -----

  /** Row i was approved with that token, which the node still presents. */
  ghost predicate Issued(s: State, i: nat, token: string) {
    && i < |s.enrollments|
    && (s.enrollments[i].status.Approved? || s.enrollments[i].status.Enrolled?)
    && (s.enrollments[i].status.Approved? ==> s.enrollments[i].token == Some(token))
    && s.enrollments[i].node in s.nodes && s.nodes[s.enrollments[i].node].secret == token
  }

  predicate Provisions(e: Event, node: NodeId) {
    e.Provision? && e.provisioning.node == node
  }

  lemma ApprovalIsElsewhere(s: State, i: nat, token: string, j: nat, now: int)
    requires OneLivePerNode(s.enrollments) && Issued(s, i, token) && StillPending(s, j, now)
    ensures j != i && s.enrollments[j].node != s.enrollments[i].node
  {
    assert Live(s.enrollments[i]) && Live(s.enrollments[j]);
    if j < i { assert s.enrollments[j].node != s.enrollments[i].node; }
  }

  lemma HelloKeepsIssued(s: State, i: nat, token: string, node: NodeId, displayName: string, now: int)
    requires RowsSound(s.enrollments) && Issued(s, i, token) && node in s.nodes
    ensures Issued(State(s.nodes[node := Greeted(s.nodes[node], displayName, now)], Claimed(s.enrollments, node, now)),
                   i, token)
  {
    assert RowSound(s.enrollments[i]);
  }

  /** The event is an approval of a request of that node, or provisions it. */
  predicate Grants(s: State, e: Event, node: NodeId) {
    match e
    case Provision(p, _) => p.node == node
    case Approve(j, a) => StillPending(s, j, a.now) && s.enrollments[j].node == node
    case ApproveCutOff(j, a) => StillPending(s, j, a.now) && s.enrollments[j].node == node
    case _ => false
  }

  /** Nothing else changes what a node has to present. */
  lemma OnlyGrantsRotate(s: State, e: Event, node: NodeId)
    requires node in s.nodes && !Grants(s, e, node)
    ensures node in Step(s, e).nodes && Step(s, e).nodes[node].secret == s.nodes[node].secret
  {
  }

  /** Only a HELLO, or an operation on the row itself, moves a row that is not pending. */
  lemma GrantedRowStays(s: State, e: Event, i: nat)
    requires i < |s.enrollments| && !s.enrollments[i].status.Pending? && !e.Hello?
    ensures i < |Step(s, e).enrollments|
    ensures var row := Step(s, e).enrollments[i];
            && row.node == s.enrollments[i].node
            && row.status == s.enrollments[i].status && row.token == s.enrollments[i].token
  {
  }

  lemma StepKeepsIssued(s: State, e: Event, i: nat, token: string)
    requires Sound(s) && Issued(s, i, token) && !Provisions(e, s.enrollments[i].node)
    ensures Issued(Step(s, e), i, token) && Step(s, e).enrollments[i].node == s.enrollments[i].node
  {
    if e.Hello? {
      if e.node in s.nodes && s.nodes[e.node].secret == e.presented {
        HelloKeepsIssued(s, i, token, e.node, e.displayName, e.now);
      }
    } else {
      if e.Approve? && StillPending(s, e.id, e.approval.now) {
        ApprovalIsElsewhere(s, i, token, e.id, e.approval.now);
      }
      if e.ApproveCutOff? && StillPending(s, e.id, e.approval.now) {
        ApprovalIsElsewhere(s, i, token, e.id, e.approval.now);
      }
      OnlyGrantsRotate(s, e, s.enrollments[i].node);
      GrantedRowStays(s, e, i);
    }
  }

  lemma {:induction false} IssuedStays(s: State, es: seq<Event>, i: nat, token: string)
    requires Sound(s) && Issued(s, i, token)
    requires forall k :: 0 <= k < |es| ==> !Provisions(es[k], s.enrollments[i].node)
    ensures Issued(Run(s, es), i, token) && Run(s, es).enrollments[i].node == s.enrollments[i].node
  {
    if es != [] {
      var before := es[..|es| - 1];
      assert forall k :: 0 <= k < |before| ==> before[k] == es[k];
      IssuedStays(s, before, i, token);
      RunSound(s, before);
      StepKeepsIssued(Run(s, before), es[|es| - 1], i, token);
    }
  }

  /** However the other operations follow an approval, until an administrator provisions the
      node anew: the token it handed out, and no other, opens the node's session; polling with
      the pairing code shows it as long as the row is approved, and the first session that it
      opens completes the enrollment and wipes the token. */
  lemma IssuedTokenOpensTheSession(s: State, i: nat, a: Approval, es: seq<Event>,
                                   presented: string, name: string, now: int)
    requires Sound(s) && StillPending(s, i, a.now)
    requires forall k :: 0 <= k < |es| ==> !Provisions(es[k], s.enrollments[i].node)
    ensures var node := s.enrollments[i].node;
            var t := Run(Step(s, Approve(i, a)), es);
            var u := Step(t, Hello(node, presented, name, now));
            && i < |t.enrollments| == |u.enrollments|
            && (t.enrollments[i].status.Approved? ==> t.enrollments[i].token == Some(a.token))
            && (u.enrollments[i].status.Enrolled? <==> t.enrollments[i].status.Enrolled? || presented == a.token)
            && (presented == a.token ==>
                  u.enrollments[i].token.None? && node in u.nodes && u.nodes[node].connection.Online?)
            && (presented != a.token ==> u == t)
  {
    StepSound(s, Approve(i, a));
    var s1 := Step(s, Approve(i, a));
    assert Issued(s1, i, a.token);
    IssuedStays(s1, es, i, a.token);
    var t := Run(s1, es);
    RunSound(s1, es);
    HelloCompletes(t, i, a.token, name, now);
  }

  lemma HelloCompletes(t: State, i: nat, token: string, name: string, now: int)
    requires Sound(t) && Issued(t, i, token)
    ensures var u := Step(t, Hello(t.enrollments[i].node, token, name, now));
            i < |u.enrollments| == |t.enrollments| && u.enrollments[i].status.Enrolled? && u.enrollments[i].token.None?
  {
    var node := t.enrollments[i].node;
    assert RowSound(t.enrollments[i]) && Live(t.enrollments[i]);
    var latest := LatestWith(t.enrollments, node, EnrollmentStatus.Approved);
    if latest.Some? {
      OnlyOneOf(t.enrollments, i, latest.value);
    }
  }

  lemma OnlyOneOf(es: seq<Enrollment>, i: nat, j: nat)
    requires OneLivePerNode(es) && i < |es| && j < |es| && es[i].node == es[j].node && Live(es[i]) && Live(es[j])
    ensures i == j
  {
  }

  // ----- Nodes that fall silent -----

  function Rank(c: Connection): nat {
    match c case Online => 0 case Stale => 1 case Offline => 2
  }

  /** Neither a word from the node nor the end of its session, and no restart of the server. */
  predicate Silent(e: Event, node: NodeId) {
    match e
    case ResetRuntime => false
    case Hello(id, _, _, _) => id != node
    case Report(id, _, _) => id != node
    case Disconnected(id) => id != node
    case _ => true
  }

  /** All sweeps use these thresholds, at times that do not go back from t. */
  predicate SweepsFrom(es: seq<Event>, th: Thresholds, t: int) {
    es == [] ||
    (&& SweepsFrom(es[..|es| - 1], th, t)
     && var e := es[|es| - 1];
        (e.Sweep? ==> e.thresholds == th && LastSweep(es[..|es| - 1], t) <= e.now))
  }

  function LastSweep(es: seq<Event>, t: int): int {
    if es == [] then t
    else if es[|es| - 1].Sweep? then es[|es| - 1].now
    else LastSweep(es[..|es| - 1], t)
  }

  predicate AnySweep(es: seq<Event>) {
    es != [] && (es[|es| - 1].Sweep? || AnySweep(es[..|es| - 1]))
  }

  /** What the sweep goes by, and what it decided last. */
  predicate Stands(n: Node, reference: Option<int>, c: Connection) {
    Reference(n) == reference && n.connection == c
  }

  /** What one event makes of a silent node's connection state. */
  function Moved(e: Event, reference: Option<int>, c: Connection): Connection {
    if e.Sweep? && reference.Some? then Classify(e.thresholds, e.now, reference.value) else c
  }

  lemma SilentStep(s: State, e: Event, node: NodeId)
    requires node in s.nodes && Silent(e, node)
    ensures node in Step(s, e).nodes
    ensures var n := s.nodes[node]; Stands(Step(s, e).nodes[node], Reference(n), Moved(e, Reference(n), n.connection))
  {
  }

  /** Whatever the rest of the server does to it -- renaming, disabling, new credentials -- a
      silent node stands where the latest sweep put it by its last heartbeat, wherever it stood
      before; and from a state no worse than its heartbeat deserves it only fades: it is never
      put closer to online again. */
  lemma {:induction false} SilenceOnlyFades(s: State, es: seq<Event>, node: NodeId,
                                            th: Thresholds, t: int, reference: int)
    requires node in s.nodes && Reference(s.nodes[node]) == Some(reference)
    requires SweepsFrom(es, th, t) && forall i :: 0 <= i < |es| ==> Silent(es[i], node)
    ensures t <= LastSweep(es, t)
    ensures node in Run(s, es).nodes
    ensures Stands(Run(s, es).nodes[node], Some(reference),
                   if AnySweep(es) then Classify(th, LastSweep(es, t), reference) else s.nodes[node].connection)
    ensures Rank(s.nodes[node].connection) <= Rank(Classify(th, t, reference)) ==>
              Rank(s.nodes[node].connection) <= Rank(Run(s, es).nodes[node].connection)
  {
    if es != [] {
      var before, e := es[..|es| - 1], es[|es| - 1];
      assert forall i :: 0 <= i < |before| ==> before[i] == es[i];
      SilenceOnlyFades(s, before, node, th, t, reference);
      SilentStep(Run(s, before), e, node);
    }
  }

  predicate OfflineThroughout(s: State, es: seq<Event>, node: NodeId) {
    && node in Run(s, es).nodes && Run(s, es).nodes[node].connection.Offline?
    && (es == [] || OfflineThroughout(s, es[..|es| - 1], node))
  }

  /** A sweep comes so early that this reference time is not old enough for offline. */
  predicate TooYoung(e: Event, reference: Option<int>) {
    e.Sweep? && reference.Some? && e.now - reference.value < e.thresholds.offlineAfter
  }

  /** A node that has hung up does not simply stay offline: it does so until it speaks again exactly
      if no sweep comes while its last heartbeat is young. */
  lemma {:induction false} HungUpStaysOfflineIff(s: State, es: seq<Event>, node: NodeId)
    requires node in s.nodes && forall i :: 0 <= i < |es| ==> Silent(es[i], node)
    ensures var reference := Reference(s.nodes[node]);
            OfflineThroughout(Step(s, Disconnected(node)), es, node) <==>
            forall i :: 0 <= i < |es| ==> !TooYoung(es[i], reference)
  {
    StaysOfflineIff(Step(s, Disconnected(node)), es, node);
  }

  lemma {:induction false} StaysOfflineIff(s: State, es: seq<Event>, node: NodeId)
    requires node in s.nodes && s.nodes[node].connection.Offline?
    requires forall i :: 0 <= i < |es| ==> Silent(es[i], node)
    ensures node in Run(s, es).nodes && Reference(Run(s, es).nodes[node]) == Reference(s.nodes[node])
    ensures OfflineThroughout(s, es, node) <==> forall i :: 0 <= i < |es| ==> !TooYoung(es[i], Reference(s.nodes[node]))
  {
    if es != [] {
      var before, e := es[..|es| - 1], es[|es| - 1];
      var reference := Reference(s.nodes[node]);
      assert forall i :: 0 <= i < |before| ==> before[i] == es[i];
      StaysOfflineIff(s, before, node);
      SilentStep(Run(s, before), e, node);
      assert (forall i :: 0 <= i < |es| ==> !TooYoung(es[i], reference)) <==>
             (forall i :: 0 <= i < |before| ==> !TooYoung(before[i], reference)) && !TooYoung(e, reference);
    }
  }
}
