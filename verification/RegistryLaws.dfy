/** What the operations on the two tables leave behind, column by column. */
module RegistryLaws {
  import opened Wrappers
  import opened Records
  import opened Nodes
  import opened Enrollments
  import opened RegistryRuns

  // ----- Frames -----

  predicate OnlyNode(s: State, t: State, id: NodeId) {
    && t.enrollments == s.enrollments && t.nodes.Keys == s.nodes.Keys + {id}
    && forall other :: other in s.nodes && other != id ==> other in t.nodes && t.nodes[other] == s.nodes[other]
  }

  predicate OnlyRow(a: seq<Enrollment>, b: seq<Enrollment>, i: nat) {
    |a| == |b| && forall j :: 0 <= j < |a| && j != i ==> b[j] == a[j]
  }

  /** What a node says and does leaves its name, its credentials and its settings alone. */
  predicate SameIdentity(a: Node, b: Node) {
    && b.displayName == a.displayName && b.secret == a.secret
    && b.enabled == a.enabled && b.autoplaySelected == a.autoplaySelected
  }

  predicate SameActivity(a: Node, b: Node) {
    && b.connection == a.connection && b.operational == a.operational && b.spot == a.spot
    && b.lastSeen == a.lastSeen && b.lastHeartbeat == a.lastHeartbeat && b.lastError == a.lastError
  }

  // ----- Nodes -----

  /** The node has the new credentials and settings; a new one has never been heard of, and one that
      exists goes on with what it does. */
  predicate HasBeenProvisioned(s: State, t: State, p: Provisioning, token: string) {
    && OnlyNode(s, t, p.node) && p.node in t.nodes
    && var n := t.nodes[p.node];
       && n.displayName == p.displayName && n.secret == token
       && n.enabled == p.enabled && n.autoplaySelected == p.autoplaySelected
       && (p.node in s.nodes ==> SameActivity(s.nodes[p.node], n))
       && (p.node !in s.nodes ==>
             && n.connection.Offline? && n.operational == "idle" && n.spot.None?
             && n.lastSeen.None? && n.lastHeartbeat.None? && n.lastError.None?)
  }

  lemma ProvisionMeans(s: State, p: Provisioning, token: string)
    ensures HasBeenProvisioned(s, Provisioned(s, p, token), p, token)
  {
  }

  /** The two switches of a node change nothing else. */
  lemma SwitchesMean(s: State, id: NodeId, on: bool)
    requires id in s.nodes
    ensures Step(s, SetEnabled(id, on)) == s.(nodes := s.nodes[id := s.nodes[id].(enabled := on)])
    ensures Step(s, SetAutoplaySelected(id, on)) == s.(nodes := s.nodes[id := s.nodes[id].(autoplaySelected := on)])
  {
  }

  predicate IsIdleNow(a: Node, b: Node) {
    && SameIdentity(a, b) && b.connection.Offline? && b.operational == "idle" && b.spot.None?
    && b.lastSeen == a.lastSeen && b.lastHeartbeat == a.lastHeartbeat && b.lastError == a.lastError
  }

  lemma IdleMeans(n: Node)
    ensures IsIdleNow(n, Idle(n))
  {
  }

  /** Any message shows that the node is there; it plays a spot from PLAYBACK_STARTED on, and none
      after it has finished or was stopped. */
  predicate HasReported(a: Node, b: Node, m: Message, now: int) {
    && SameIdentity(a, b) && b.connection.Online? && b.lastSeen == Some(now)
    && b.lastHeartbeat == (if m.Heartbeat? || m.SyncResult? then Some(now) else a.lastHeartbeat)
    && (m.PlaybackStarted? ==> b.operational == "playing" && b.spot == Some(m.started) && b.lastError == a.lastError)
    && (m.PlaybackFinished? ==> b.operational == "ready" && b.spot.None? && b.lastError == a.lastError)
    && (m.PlaybackStopped? ==> b.operational == "stopped" && b.spot.None? && b.lastError == a.lastError)
    && (m.PlaybackError? ==> b.operational == "error" && b.spot == a.spot && b.lastError == Some(m.message))
    && (m.Heartbeat? ==> b.operational == m.status && b.spot == m.spot && b.lastError == a.lastError)
    && (m.SyncResult? ==>
          b.operational == (if m.success then "ready" else "error") && b.spot == a.spot && b.lastError == m.error)
    && (m.StatusUpdate? ==> b.operational == m.status && b.spot == m.spot)
    && (m.StatusUpdate? && m.details == "" ==> b.lastError == a.lastError)
    && (m.StatusUpdate? && m.details != "" ==> b.lastError == if m.status == "error" then Some(m.details) else None)
  }

  lemma ReportMeans(n: Node, m: Message, now: int)
    ensures HasReported(n, Reported(n, m, now), m, now)
  {
  }

  predicate HasGreeted(a: Node, b: Node, displayName: string, now: int) {
    && b.displayName == displayName && b.secret == a.secret
    && b.enabled == a.enabled && b.autoplaySelected == a.autoplaySelected
    && b.connection.Online? && b.operational == "idle" && b.spot == a.spot && b.lastError == a.lastError
    && b.lastSeen == Some(now) && b.lastHeartbeat == Some(now)
  }

  /** The latest approved enrollment of the node, if any, is enrolled, without its token, and claimed
      by now at the latest; no other row has changed. */
  predicate HasBeenClaimed(a: seq<Enrollment>, b: seq<Enrollment>, node: NodeId, now: int) {
    |a| == |b| && forall i :: 0 <= i < |a| ==>
      if a[i].node == node && a[i].status.Approved? && NoneLater(a, node, i)
      then b[i] == a[i].(status := EnrollmentStatus.Enrolled, token := None,
                         claimedAt := if a[i].claimedAt.Some? then a[i].claimedAt else Some(now))
      else b[i] == a[i]
  }

  predicate NoneLater(es: seq<Enrollment>, node: NodeId, i: nat) {
    forall j :: i < j < |es| ==> es[j].node != node || !es[j].status.Approved?
  }

  lemma HelloMeans(s: State, node: NodeId, displayName: string, now: int)
    requires node in s.nodes
    ensures HasGreeted(s.nodes[node], Greeted(s.nodes[node], displayName, now), displayName, now)
    ensures HasBeenClaimed(s.enrollments, Claimed(s.enrollments, node, now), node, now)
  {
    var latest := LatestWith(s.enrollments, node, EnrollmentStatus.Approved);
    if latest.Some? {
      assert NoneLater(s.enrollments, node, latest.value);
      forall i | 0 <= i < |s.enrollments| && NoneLater(s.enrollments, node, i)
                 && s.enrollments[i].node == node && s.enrollments[i].status.Approved?
        ensures i == latest.value
      {
      }
    }
  }

  /** Every node stands where its reference time says: offline from one age on, stale from another,
      and online before. Only its state changes, and what it played is forgotten when it goes offline. */
  predicate HasBeenSwept(th: Thresholds, now: int, a: Node, b: Node) {
    var reference := if a.lastHeartbeat.Some? then a.lastHeartbeat else a.lastSeen;
    && SameIdentity(a, b)
    && b.lastSeen == a.lastSeen && b.lastHeartbeat == a.lastHeartbeat && b.lastError == a.lastError
    && (reference.None? ==> b == a)
    && (reference.Some? ==>
          var age := now - reference.value;
          && (b.connection.Offline? <==> age >= th.offlineAfter)
          && (b.connection.Stale? <==> age >= th.staleAfter && age < th.offlineAfter))
    && (if b.connection.Offline? && !a.connection.Offline? then b.operational == "idle" && b.spot.None?
        else b.operational == a.operational && b.spot == a.spot)
  }

  lemma SweepMeans(th: Thresholds, now: int, n: Node)
    ensures HasBeenSwept(th, now, n, Swept(th, now, n))
  {
  }

  // ----- Enrollments -----

  /** The request's row: its code, its name and its time to live; a refreshed row keeps everything
      else, a new one has nothing else. */
  predicate HasBeenRequested(s: State, t: State, r: Request, i: nat) {
    && t.nodes == s.nodes && i < |t.enrollments|
    && var e := t.enrollments[i];
       && e.node == r.node && e.status.Pending? && e.code == r.code && e.displayName == r.displayName
       && e.expiresAt == r.now + r.ttl && e.rejectionReason.None?
       && (i < |s.enrollments| ==>
             && OnlyRow(s.enrollments, t.enrollments, i)
             && s.enrollments[i].status.Pending? && s.enrollments[i].node == r.node
             && e.enabled == s.enrollments[i].enabled && e.autoplaySelected == s.enrollments[i].autoplaySelected
             && e.token == s.enrollments[i].token && e.claimedAt == s.enrollments[i].claimedAt
             && e.approvedAt == s.enrollments[i].approvedAt && e.rejectedAt == s.enrollments[i].rejectedAt)
       && (i >= |s.enrollments| ==>
             && t.enrollments == s.enrollments + [e]
             && (forall j :: 0 <= j < i ==> !(s.enrollments[j].node == r.node && s.enrollments[j].status.Pending?))
             && e.enabled && e.autoplaySelected && e.token.None? && e.claimedAt.None?
             && e.approvedAt.None? && e.rejectedAt.None?)
  }

  lemma RequestMeans(s: State, r: Request)
    requires r.node !in s.nodes
    ensures exists i: nat :: HasBeenRequested(s, Requested(s, r), r, i)
  {
    var pending := LatestWith(s.enrollments, r.node, EnrollmentStatus.Pending);
    assert HasBeenRequested(s, Requested(s, r), r, if pending.Some? then pending.value else |s.enrollments|);
  }

  /** The row is pending and `now` is not after its expiry time. */
  predicate Decidable(s: State, i: nat, now: int) {
    i < |s.enrollments| && s.enrollments[i].status.Pending? && now <= s.enrollments[i].expiresAt
  }

  /** A look at row i, and nothing more: it is expired if it was pending and the look comes late. */
  predicate HasBeenLookedAt(s: State, t: State, i: nat, now: int) {
    && t.nodes == s.nodes && OnlyRow(s.enrollments, t.enrollments, i)
    && (i < |s.enrollments| ==>
          var late := s.enrollments[i].status.Pending? && now > s.enrollments[i].expiresAt;
          t.enrollments[i] == if late then s.enrollments[i].(status := EnrollmentStatus.Expired) else s.enrollments[i])
  }

  lemma LookMeans(s: State, i: nat, now: int)
    ensures HasBeenLookedAt(s, ReadRow(s, i, now), i, now)
    ensures StillPending(s, i, now) <==> Decidable(s, i, now)
  {
  }

  /** A listing: the rows of that status are looked at, and no others. */
  predicate HasBeenListed(s: State, t: State, filter: Option<EnrollmentStatus>, now: int) {
    && t.nodes == s.nodes && |t.enrollments| == |s.enrollments|
    && forall i :: 0 <= i < |s.enrollments| ==>
         var e := s.enrollments[i];
         t.enrollments[i] == if e.status.Pending? && now > e.expiresAt && (filter.None? || filter.value.Pending?)
                             then e.(status := EnrollmentStatus.Expired) else e
  }

  lemma ListMeans(s: State, filter: Option<EnrollmentStatus>, now: int)
    ensures HasBeenListed(s, Step(s, List(filter, now)), filter, now)
  {
  }

  /** An approval: the node exists with the token and the settings, and the row keeps the token. */
  predicate HasBeenApproved(s: State, t: State, i: nat, a: Approval)
    requires i < |s.enrollments|
  {
    var e := s.enrollments[i];
    var name := if a.displayName != "" then a.displayName else e.displayName;
    && OnlyRow(s.enrollments, t.enrollments, i)
    && t.enrollments[i] == e.(status := EnrollmentStatus.Approved, displayName := name, enabled := a.enabled,
                              autoplaySelected := a.autoplaySelected, token := Some(a.token),
                              approvedAt := Some(a.now), rejectionReason := None)
    && HasBeenProvisioned(s, State(t.nodes, s.enrollments), Provisioning(e.node, name, a.enabled, a.autoplaySelected),
                          a.token)
  }

  lemma ApproveMeans(s: State, i: nat, a: Approval)
    requires Decidable(s, i, a.now)
    ensures HasBeenApproved(s, Step(s, Approve(i, a)), i, a)
  {
    LookMeans(s, i, a.now);
    assert ReadRow(s, i, a.now) == s by {
      assert s.enrollments[i := s.enrollments[i]] == s.enrollments;
    }
    var e := s.enrollments[i];
    ProvisionMeans(s, Provisioning(e.node, NameFor(a, e), a.enabled, a.autoplaySelected), a.token);
  }

  predicate HasBeenRejected(s: State, t: State, i: nat, reason: Option<string>, now: int)
    requires i < |s.enrollments|
  {
    && t.nodes == s.nodes && OnlyRow(s.enrollments, t.enrollments, i)
    && t.enrollments[i] == s.enrollments[i].(status := EnrollmentStatus.Rejected, rejectedAt := Some(now),
                                             rejectionReason := reason)
  }

  lemma RejectMeans(s: State, i: nat, reason: Option<string>, now: int)
    requires Decidable(s, i, now)
    ensures HasBeenRejected(s, Step(s, Reject(i, reason, now)), i, reason, now)
  {
    LookMeans(s, i, now);
  }

  /** A poll is a look; with the right code, the first look at an approved row claims it. */
  predicate HasBeenPolled(s: State, t: State, i: nat, code: string, now: int)
    requires i < |s.enrollments|
  {
    if s.enrollments[i].code == code && s.enrollments[i].status.Approved? && s.enrollments[i].claimedAt.None?
    then && t.nodes == s.nodes && OnlyRow(s.enrollments, t.enrollments, i)
         && t.enrollments[i] == s.enrollments[i].(claimedAt := Some(now))
    else HasBeenLookedAt(s, t, i, now)
  }

  lemma PollMeans(s: State, i: nat, code: string, now: int)
    requires i < |s.enrollments|
    ensures HasBeenPolled(s, Step(s, Poll(i, code, now)), i, code, now)
  {
    LookMeans(s, i, now);
  }
}
