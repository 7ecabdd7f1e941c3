/** When an enrollment request expires, and until when it can be decided. */
module Expiry {
  import opened Wrappers
  import opened Records
  import opened Nodes
  import opened Enrollments
  import opened RegistryRuns

  /** When the event looks at row i, if it does; a listing looks at what it lists. */
  function Looks(s: State, e: Event, i: nat): Option<int>
    requires i < |s.enrollments|
  {
    match e
    case Read(j, now) => if j == i then Some(now) else None
    case List(filter, now) => if filter.None? || filter == Some(s.enrollments[i].status) then Some(now) else None
    case Approve(j, a) => if j == i then Some(a.now) else None
    case ApproveCutOff(j, a) => if j == i then Some(a.now) else None
    case Reject(j, _, now) => if j == i then Some(now) else None
    case Poll(j, _, now) => if j == i then Some(now) else None
    case _ => None
  }

  predicate LooksAtOne(e: Event) {
    e.Read? || e.Approve? || e.ApproveCutOff? || e.Reject? || e.Poll?
  }

  predicate ExpiredIff(s: State, e: Event, i: nat)
    requires i < |s.enrollments|
  {
    && i < |Step(s, e).enrollments|
    && (Step(s, e).enrollments[i].status.Expired? <==>
          || s.enrollments[i].status.Expired?
          || (s.enrollments[i].status.Pending? && Looks(s, e, i).Some?
              && Looks(s, e, i).value > s.enrollments[i].expiresAt))
  }

  lemma ExpiresWhenLookedAt(s: State, e: Event, i: nat)
    requires i < |s.enrollments| && LooksAtOne(e)
    ensures ExpiredIff(s, e, i)
  {
  }

  lemma NothingElseExpires(s: State, e: Event, i: nat)
    requires i < |s.enrollments| && !LooksAtOne(e) && !e.List?
    ensures ExpiredIff(s, e, i)
  {
  }

  /** An operation makes a row expired exactly if the row is pending and the operation looks at it
      later than the row's expiry time; at that very time it is not late. */
  lemma ExpiresExactly(s: State, e: Event, i: nat)
    requires i < |s.enrollments|
    ensures ExpiredIff(s, e, i)
  {
    if LooksAtOne(e) {
      ExpiresWhenLookedAt(s, e, i);
    } else if !e.List? {
      NothingElseExpires(s, e, i);
    }
  }

  /** Event k of the run looked at row i while it was pending, and too late. */
  ghost predicate CameTooLate(s: State, es: seq<Event>, k: nat, i: nat) {
    && k < |es| && i < |Run(s, es[..k]).enrollments|
    && var row := Run(s, es[..k]).enrollments[i];
       row.status.Pending? && Looks(Run(s, es[..k]), es[k], i).Some?
       && Looks(Run(s, es[..k]), es[k], i).value > row.expiresAt
  }

  /** From an empty server: whatever is expired was looked at too late while it was pending. */
  lemma {:induction false} ExpiryHasItsCause(es: seq<Event>, i: nat) returns (k: nat)
    requires i < |Run(State(map[], []), es).enrollments|
    requires Run(State(map[], []), es).enrollments[i].status.Expired?
    ensures CameTooLate(State(map[], []), es, k, i)
  {
    var s, before := State(map[], []), es[..|es| - 1];
    var t := Run(s, before);
    StepTakesEdges(t, es[|es| - 1]);
    ExpiresExactly(t, es[|es| - 1], i);
    if t.enrollments[i].status.Expired? {
      k := ExpiryHasItsCause(before, i);
      assert es[..k] == before[..k] && es[k] == before[k];
    } else {
      k := |before|;
      assert es[..k] == before;
    }
  }

  /** The row that a request makes or refreshes. */
  function RequestedRow(s: State, r: Request): nat {
    var pending := LatestWith(s.enrollments, r.node, EnrollmentStatus.Pending);
    if pending.Some? then pending.value else |s.enrollments|
  }

  /** The moment at which an event happens, where it matters. */
  function Time(e: Event): Option<int> {
    match e
    case Read(_, now) => Some(now)
    case List(_, now) => Some(now)
    case Approve(_, a) => Some(a.now)
    case ApproveCutOff(_, a) => Some(a.now)
    case Reject(_, _, now) => Some(now)
    case Poll(_, _, now) => Some(now)
    case _ => None
  }

  /** Neither another request of the node, nor a decision on row i; and not after `now`. */
  predicate Passes(e: Event, node: NodeId, i: nat, now: int) {
    && !(e.RequestEnroll? && e.request.node == node)
    && !((e.Approve? || e.Reject?) && e.id == i)
    && (Time(e).Some? ==> Time(e).value <= now)
  }

  /** Row i is that node's, with expiry time d, and nothing but its expiry has happened to it: not
      before d has passed. */
  predicate Undecided(s: State, i: nat, node: NodeId, d: int, now: int) {
    && i < |s.enrollments| && s.enrollments[i].node == node && s.enrollments[i].expiresAt == d
    && (s.enrollments[i].status.Pending? || (s.enrollments[i].status.Expired? && d < now))
  }

  lemma LookLeavesUndecided(s: State, e: Event, i: nat, node: NodeId, d: int, now: int)
    requires Undecided(s, i, node, d, now) && Passes(e, node, i, now) && LooksAtOne(e)
    ensures Undecided(Step(s, e), i, node, d, now)
  {
  }

  lemma RequestLeavesUndecided(s: State, r: Request, i: nat, node: NodeId, d: int, now: int)
    requires Undecided(s, i, node, d, now) && r.node != node
    ensures Undecided(Step(s, RequestEnroll(r)), i, node, d, now)
  {
  }

  lemma StepLeavesUndecided(s: State, e: Event, i: nat, node: NodeId, d: int, now: int)
    requires Undecided(s, i, node, d, now) && Passes(e, node, i, now)
    ensures Undecided(Step(s, e), i, node, d, now)
  {
    if LooksAtOne(e) {
      LookLeavesUndecided(s, e, i, node, d, now);
    } else if e.RequestEnroll? {
      RequestLeavesUndecided(s, e.request, i, node, d, now);
    }
  }

  lemma {:induction false} StaysUndecided(s: State, es: seq<Event>, i: nat, node: NodeId, d: int, now: int)
    requires Undecided(s, i, node, d, now)
    requires forall k :: 0 <= k < |es| ==> Passes(es[k], node, i, now)
    ensures Undecided(Run(s, es), i, node, d, now)
  {
    if es != [] {
      var before := es[..|es| - 1];
      assert forall k :: 0 <= k < |before| ==> before[k] == es[k];
      StaysUndecided(s, before, i, node, d, now);
      StepLeavesUndecided(Run(s, before), es[|es| - 1], i, node, d, now);
    }
  }

  lemma RequestIsUndecided(s: State, r: Request, now: int)
    requires r.node !in s.nodes
    ensures Undecided(Step(s, RequestEnroll(r)), RequestedRow(s, r), r.node, r.now + r.ttl, now)
  {
  }

  predicate ApprovedBy(s: State, i: nat, a: Approval) {
    var t := Step(s, Approve(i, a)); i < |t.enrollments| && t.enrollments[i].status.Approved?
  }

  predicate RejectedBy(s: State, i: nat, reason: Option<string>, now: int) {
    var t := Step(s, Reject(i, reason, now)); i < |t.enrollments| && t.enrollments[i].status.Rejected?
  }

  lemma DecidableInTime(s: State, i: nat, node: NodeId, d: int, a: Approval, reason: Option<string>)
    requires Undecided(s, i, node, d, a.now)
    ensures ApprovedBy(s, i, a) <==> a.now <= d
    ensures RejectedBy(s, i, reason, a.now) <==> a.now <= d
  {
  }

  /** A request, made or refreshed, can be approved or rejected at every moment up to its time plus
      its time to live, and at none after, whatever else happens in between: other nodes, polls,
      listings, sweeps, approvals that were cut off. */
  lemma DecidableExactlyUntil(s: State, r: Request, es: seq<Event>, a: Approval, reason: Option<string>)
    requires r.node !in s.nodes
    requires forall k :: 0 <= k < |es| ==> Passes(es[k], r.node, RequestedRow(s, r), a.now)
    ensures var t := Run(Step(s, RequestEnroll(r)), es);
            && (ApprovedBy(t, RequestedRow(s, r), a) <==> a.now <= r.now + r.ttl)
            && (RejectedBy(t, RequestedRow(s, r), reason, a.now) <==> a.now <= r.now + r.ttl)
  {
    RequestIsUndecided(s, r, a.now);
    StaysUndecided(Step(s, RequestEnroll(r)), es, RequestedRow(s, r), r.node, r.now + r.ttl, a.now);
    DecidableInTime(Run(Step(s, RequestEnroll(r)), es), RequestedRow(s, r), r.node, r.now + r.ttl, a, reason);
  }
}
