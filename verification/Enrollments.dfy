/** The enrollment service: pairing requests, their expiry, approval, rejection and polling. */
module Enrollments {
  import opened Wrappers
  import opened Records
  import opened Nodes

  datatype Request = Request(node: NodeId, displayName: string, code: string, now: int, ttl: int)

  datatype Approval = Approval(enabled: bool, autoplaySelected: bool, displayName: string, token: string, now: int)

  // ----- Rows -----

  /** A pending request past its time is expired; the moment of expiry itself still counts. */
  function MarkExpired(e: Enrollment, now: int): Enrollment {
    if e.status.Pending? && e.expiresAt < now then e.(status := Expired) else e
  }

  /** Reading a row marks it if needed, and that is stored. */
  function ReadRow(s: State, i: nat, now: int): State {
    if i < |s.enrollments| then s.(enrollments := s.enrollments[i := MarkExpired(s.enrollments[i], now)]) else s
  }

  function Requested(s: State, r: Request): State {
    if r.node in s.nodes then s
    else
      match LatestWith(s.enrollments, r.node, Pending)
      case None =>
        s.(enrollments := s.enrollments +
             [Enrollment(r.node, r.code, Pending, r.displayName, true, true, None, r.now + r.ttl,
                         None, None, None, None)])
      case Some(i) =>
        s.(enrollments := s.enrollments[i := s.enrollments[i].(
             code := r.code, displayName := r.displayName, expiresAt := r.now + r.ttl, rejectionReason := None)])
  }

  predicate StillPending(s: State, i: nat, now: int) {
    i < |s.enrollments| && MarkExpired(s.enrollments[i], now).status.Pending?
  }

  function NameFor(a: Approval, e: Enrollment): string {
    if a.displayName != "" then a.displayName else e.displayName
  }

  /** The first half of an approval, committed on its own: the node exists with a new token. */
  function ApprovalProvisions(s: State, i: nat, a: Approval): State
    requires i < |s.enrollments|
  {
    var e := s.enrollments[i];
    Provisioned(s, Provisioning(e.node, NameFor(a, e), a.enabled, a.autoplaySelected), a.token)
  }

  function Approves(s: State, i: nat, a: Approval): State
    requires i < |s.enrollments|
  {
    var t := ApprovalProvisions(s, i, a);
    var e := s.enrollments[i];
    t.(enrollments := s.enrollments[i := e.(
         status := EnrollmentStatus.Approved, displayName := NameFor(a, e), enabled := a.enabled,
         autoplaySelected := a.autoplaySelected, token := Some(a.token), approvedAt := Some(a.now),
         rejectionReason := None)])
  }

  function Rejects(s: State, i: nat, reason: Option<string>, now: int): State
    requires i < |s.enrollments|
  {
    s.(enrollments := s.enrollments[i := s.enrollments[i].(
         status := EnrollmentStatus.Rejected, rejectedAt := Some(now), rejectionReason := reason)])
  }

  function Polled(s: State, i: nat, code: string, now: int): State
    requires i < |s.enrollments|
  {
    var e := s.enrollments[i];
    if e.code == code && e.status.Approved? && e.claimedAt.None?
    then s.(enrollments := s.enrollments[i := e.(claimedAt := Some(now))])
    else s
  }

  predicate Matches(e: Enrollment, filter: Option<EnrollmentStatus>) {
    filter.None? || e.status == filter.value
  }

  /** What a listing leaves behind. */
  function MarkListed(es: seq<Enrollment>, filter: Option<EnrollmentStatus>, now: int): seq<Enrollment> {
    seq(|es|, (i: nat) requires i < |es| =>
      if Matches(es[i], filter) then MarkExpired(es[i], now) else es[i])
  }
}
