/** The enrollment service's methods, which share both tables with the node service. */
module EnrollmentService {
  import opened Wrappers
  import opened Records
  import opened Nodes
  import opened Enrollments
  import opened RegistryRuns
  import opened RegistryLaws
  import opened NodeService

  datatype Error = AlreadyEnrolled | UnknownEnrollment | NotPending | InvalidPairingCode

  method RequestEnrollment(db: Database, r: Request) returns (id: Result<nat, Error>)
    modifies db`enrollments
    ensures db.Contents() == Step(old(db.Contents()), RequestEnroll(r))
    ensures id.Ok? <==> r.node !in db.nodes
    ensures id.Ok? ==> HasBeenRequested(old(db.Contents()), db.Contents(), r, id.value)
    ensures id.Err? ==> id.error == AlreadyEnrolled && db.Contents() == old(db.Contents())
    ensures old(Valid(db)) ==> Valid(db)
  {
    StaysSound(db.Contents(), RequestEnroll(r));
    if r.node !in db.nodes { RequestMeans(db.Contents(), r); }
    if r.node in db.nodes {
      return Err(AlreadyEnrolled);
    }
    var expiresAt := r.now + r.ttl;
    var pending := LatestWith(db.enrollments, r.node, Pending);
    if pending.None? {
      id := Ok(|db.enrollments|);
      db.enrollments := db.enrollments +
        [Enrollment(r.node, r.code, Pending, r.displayName, true, true, None, expiresAt, None, None, None, None)];
    } else {
      var e := db.enrollments[pending.value].(code := r.code);
      e := e.(displayName := r.displayName);
      e := e.(expiresAt := expiresAt);
      e := e.(rejectionReason := None);
      db.enrollments := db.enrollments[pending.value := e];
      id := Ok(pending.value);
    }
  }

  method GetEnrollment(db: Database, i: nat, now: int) returns (e: Result<Enrollment, Error>)
    modifies db`enrollments
    ensures db.Contents() == Step(old(db.Contents()), Read(i, now))
    ensures e == if i < |db.enrollments| then Ok(db.enrollments[i]) else Err(UnknownEnrollment)
    ensures HasBeenLookedAt(old(db.Contents()), db.Contents(), i, now)
    ensures old(Valid(db)) ==> Valid(db)
  {
    StaysSound(db.Contents(), Read(i, now));
    LookMeans(db.Contents(), i, now);
    if i >= |db.enrollments| {
      return Err(UnknownEnrollment);
    }
    var row := db.enrollments[i];
    if row.status.Pending? && row.expiresAt < now {
      row := row.(status := Expired);
    }
    db.enrollments := db.enrollments[i := row];
    e := Ok(row);
  }

  /** What is left when the rows from i on have been listed. */
  function MarkedFrom(es: seq<Enrollment>, filter: Option<EnrollmentStatus>, now: int, i: nat): seq<Enrollment> {
    seq(|es|, (h: nat) requires h < |es| => if i <= h && Matches(es[h], filter) then MarkExpired(es[h], now) else es[h])
  }

  lemma MarkOneMore(es: seq<Enrollment>, filter: Option<EnrollmentStatus>, now: int, i: nat)
    requires i < |es|
    ensures MarkedFrom(es, filter, now, i + 1)[i] == es[i]
    ensures MarkedFrom(es, filter, now, i) ==
            if Matches(es[i], filter) then MarkedFrom(es, filter, now, i + 1)[i := MarkExpired(es[i], now)]
            else MarkedFrom(es, filter, now, i + 1)
  {
  }

  /** Listing marks every listed row; rows of another status are not listed. */
  method ListEnrollments(db: Database, filter: Option<EnrollmentStatus>, now: int) returns (listed: seq<nat>)
    modifies db`enrollments
    ensures db.Contents() == Step(old(db.Contents()), List(filter, now))
    ensures forall i :: 0 <= i < |db.enrollments| ==>
              (i in listed <==> Matches(old(db.enrollments)[i], filter))
    ensures forall j, k :: 0 <= j < k < |listed| ==> listed[j] > listed[k]
    ensures forall j :: 0 <= j < |listed| ==> listed[j] < |db.enrollments|
    ensures HasBeenListed(old(db.Contents()), db.Contents(), filter, now)
    ensures old(Valid(db)) ==> Valid(db)
  {
    StaysSound(db.Contents(), List(filter, now));
    ListMeans(db.Contents(), filter, now);
    ghost var was := db.enrollments;
    listed := [];
    var i := |db.enrollments|;
    while i > 0
      invariant 0 <= i <= |was| == |db.enrollments|
      invariant db.enrollments == MarkedFrom(was, filter, now, i)
      invariant forall h :: 0 <= h < |was| ==>
        (h in listed <==> i <= h && Matches(was[h], filter))
      invariant forall j, k :: 0 <= j < k < |listed| ==> listed[j] > listed[k]
      invariant forall j :: 0 <= j < |listed| ==> i <= listed[j] < |was|
    {
      i := i - 1;
      MarkOneMore(was, filter, now, i);
      var row := db.enrollments[i];
      if filter.None? || row.status == filter.value {
        if row.status.Pending? && row.expiresAt < now {
          row := row.(status := Expired);
        }
        db.enrollments := db.enrollments[i := row];
        listed := listed + [i];
      }
    }
  }

  /** Provisions the node, and then keeps its token with the enrollment until it is picked up. */
  method Grant(db: Database, i: nat, row: Enrollment, a: Approval) returns (e: Enrollment)
    requires i < |db.enrollments| && db.enrollments[i] == row
    modifies db
    ensures db.Contents() == Approves(old(db.Contents()), i, a)
    ensures i < |db.enrollments| && e == db.enrollments[i]
  {
    e := row;
    var name := if a.displayName != "" then a.displayName else e.displayName;
    ProvisionNodeWithToken(db, Provisioning(e.node, name, a.enabled, a.autoplaySelected), a.token);
    e := e.(status := EnrollmentStatus.Approved, displayName := name);
    e := e.(enabled := a.enabled, autoplaySelected := a.autoplaySelected);
    e := e.(token := Some(a.token), approvedAt := Some(a.now));
    e := e.(rejectionReason := None);
    db.enrollments := db.enrollments[i := e];
  }

  method ApproveEnrollment(db: Database, i: nat, a: Approval) returns (r: Result<Enrollment, Error>)
    modifies db
    ensures db.Contents() == Step(old(db.Contents()), Approve(i, a))
    ensures r.Ok? <==> i < |old(db.enrollments)| && old(db.enrollments)[i].status.Pending?
                       && a.now <= old(db.enrollments)[i].expiresAt
    ensures r.Ok? ==> HasBeenApproved(old(db.Contents()), db.Contents(), i, a) && r.value == db.enrollments[i]
    ensures r.Err? ==> HasBeenLookedAt(old(db.Contents()), db.Contents(), i, a.now)
                       && r.error == if i < |old(db.enrollments)| then NotPending else UnknownEnrollment
    ensures old(Valid(db)) ==> Valid(db)
  {
    StaysSound(db.Contents(), Approve(i, a));
    LookMeans(db.Contents(), i, a.now);
    if Decidable(db.Contents(), i, a.now) { ApproveMeans(db.Contents(), i, a); }
    var found := GetEnrollment(db, i, a.now);
    if found.Err? {
      return Err(found.error);
    }
    var e := found.value;
    if !e.status.Pending? {
      return Err(NotPending);
    }
    e := Grant(db, i, e, a);
    r := Ok(e);
  }

  method RejectEnrollment(db: Database, i: nat, reason: Option<string>, now: int) returns (r: Result<Enrollment, Error>)
    modifies db`enrollments
    ensures db.Contents() == Step(old(db.Contents()), Reject(i, reason, now))
    ensures r.Ok? <==> i < |old(db.enrollments)| && old(db.enrollments)[i].status.Pending?
                       && now <= old(db.enrollments)[i].expiresAt
    ensures r.Ok? ==> HasBeenRejected(old(db.Contents()), db.Contents(), i, reason, now) && r.value == db.enrollments[i]
    ensures r.Err? ==> HasBeenLookedAt(old(db.Contents()), db.Contents(), i, now)
                       && r.error == if i < |old(db.enrollments)| then NotPending else UnknownEnrollment
    ensures old(Valid(db)) ==> Valid(db)
  {
    StaysSound(db.Contents(), Reject(i, reason, now));
    LookMeans(db.Contents(), i, now);
    if Decidable(db.Contents(), i, now) { RejectMeans(db.Contents(), i, reason, now); }
    var found := GetEnrollment(db, i, now);
    if found.Err? {
      return Err(found.error);
    }
    var e := found.value;
    if !e.status.Pending? {
      return Err(NotPending);
    }
    e := e.(status := EnrollmentStatus.Rejected);
    e := e.(rejectedAt := Some(now));
    e := e.(rejectionReason := reason);
    db.enrollments := db.enrollments[i := e];
    r := Ok(e);
  }

  /** What the node asks for with its pairing code; the first look at an approval claims it. */
  method GetStatusForNode(db: Database, i: nat, code: string, now: int) returns (r: Result<Enrollment, Error>)
    modifies db`enrollments
    ensures db.Contents() == Step(old(db.Contents()), Poll(i, code, now))
    ensures i < |old(db.enrollments)| ==> HasBeenPolled(old(db.Contents()), db.Contents(), i, code, now)
    ensures r.Err? ==> r.error == if i < |old(db.enrollments)| then InvalidPairingCode else UnknownEnrollment
    ensures r.Ok? <==> i < |old(db.enrollments)| && old(db.enrollments)[i].code == code
    ensures r.Ok? ==> r.value == db.enrollments[i]
    ensures old(Valid(db)) ==> Valid(db)
  {
    StaysSound(db.Contents(), Poll(i, code, now));
    if i < |db.enrollments| { PollMeans(db.Contents(), i, code, now); }
    var found := GetEnrollment(db, i, now);
    if found.Err? {
      return Err(found.error);
    }
    var e := found.value;
    if e.code != code {
      return Err(InvalidPairingCode);
    }
    if e.status.Approved? && e.claimedAt.None? {
      e := e.(claimedAt := Some(now));
      db.enrollments := db.enrollments[i := e];
    }
    r := Ok(e);
  }
}
