/** The two tables that provisioning, enrollment, the node sockets and the liveness sweep share. */
module Records {
  import opened Wrappers

  type NodeId = string

  datatype Connection = Online | Stale | Offline

  // `secret` stands for the token whose salted hash is stored: only that token verifies against it.
  datatype Node = Node(
    displayName: string,
    secret: string,
    enabled: bool,
    autoplaySelected: bool,
    connection: Connection,
    operational: string,
    spot: Option<string>,
    lastSeen: Option<int>,
    lastHeartbeat: Option<int>,
    lastError: Option<string>)

  datatype EnrollmentStatus = Pending | Approved | Rejected | Expired | Enrolled

  datatype Enrollment = Enrollment(
    node: NodeId,
    code: string,
    status: EnrollmentStatus,
    displayName: string,
    enabled: bool,
    autoplaySelected: bool,
    token: Option<string>,
    expiresAt: int,
    approvedAt: Option<int>,
    rejectedAt: Option<int>,
    rejectionReason: Option<string>,
    claimedAt: Option<int>)

  /** Enrollments are listed in the order of their creation; an id is a position in that list. */
  datatype State = State(nodes: map<NodeId, Node>, enrollments: seq<Enrollment>)

  class Database {
    var nodes: map<NodeId, Node>
    var enrollments: seq<Enrollment>

    function Contents(): State
      reads this
    {
      State(nodes, enrollments)
    }

    constructor ()
      ensures Contents() == State(map[], [])
    {
      nodes, enrollments := map[], [];
    }
  }

  /** The latest enrollment of the node with that status. */
  function LatestWith(es: seq<Enrollment>, node: NodeId, status: EnrollmentStatus): (i: Option<nat>)
    ensures i.Some? ==> i.value < |es| && es[i.value].node == node && es[i.value].status == status
    ensures i.Some? ==> forall j :: i.value < j < |es| ==> es[j].node != node || es[j].status != status
    ensures i.None? ==> forall j :: 0 <= j < |es| ==> es[j].node != node || es[j].status != status
  {
    if es == [] then None
    else if es[|es| - 1].node == node && es[|es| - 1].status == status then Some(|es| - 1)
    else LatestWith(es[..|es| - 1], node, status)
  }
}
