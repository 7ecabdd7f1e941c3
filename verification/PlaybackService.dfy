/** The two commands of the playback service. */
module PlaybackService {
  import opened Wrappers
  import opened Manager
  import opened Playback
  import opened PlaybackReports
  import opened PlaybackLaws

  /** The play command; `reset` says that the autoplay timer is to be reset afterwards. */
  method DispatchPlay(m: ConnectionManager, r: RequestId, spot: string, activeSpots: set<string>,
                      nodeIds: seq<NodeId>, nodes: map<NodeId, bool>, w: World, begin: int, timeout: nat,
                      origin: string, resetScheduler: bool)
    returns (out: Result<Report, string>, reset: bool, ghost seen: nat)
    requires m.Valid() && Rely(m.ledger, w, r) && Timed(w, begin)
    modifies m
    ensures m.Valid()
    ensures spot in activeSpots ==>
              out == Ok(ReportFor(Play, old(m.connections).Keys, nodes, w, r, nodeIds, begin, timeout))
    ensures spot !in activeSpots ==> out.Err? && m.Contents() == old(m.Contents())
    ensures spot in activeSpots ==> ReportExplained(Play, old(m.connections).Keys, nodes, w, Dedup(nodeIds), out.value)
    ensures var p := PlanFor(Play, old(m.connections).Keys, nodes, w, Dedup(nodeIds));
            && (reset <==> spot in activeSpots && resetScheduler && origin == "admin"
                           && AnyStarted(w, r, p.sent, Clock(w, begin, p.cursor), timeout))
    ensures forall k :: k in m.pending ==> k.request != r
    ensures seen <= |w.env|
    ensures out.Ok? ==> AgreeOutside(m.ledger, RunLedger(old(m.ledger), w.env[..seen]), r)
  {
    seen := 0;
    if spot !in activeSpots {
      return Err("Unknown active spot " + spot), false, 0;
    }
    SomeStartedIff(m.connections.Keys, nodes, w, r, nodeIds, begin, timeout);
    ReportIsExplained(Play, m.connections.Keys, nodes, w, r, nodeIds, begin, timeout);
    var report, end := Dispatch(Play, m, r, nodeIds, nodes, w, begin, timeout);
    seen := end;
    out := Ok(report);
    reset := resetScheduler && origin == "admin" && SomeStarted(report.results);
  }

  method DispatchStop(m: ConnectionManager, r: RequestId, nodeIds: seq<NodeId>, nodes: map<NodeId, bool>,
                      w: World, begin: int, timeout: nat)
    returns (report: Report, ghost seen: nat)
    requires m.Valid() && Rely(m.ledger, w, r) && Timed(w, begin)
    modifies m
    ensures m.Valid()
    ensures report == ReportFor(Stop, old(m.connections).Keys, nodes, w, r, nodeIds, begin, timeout)
    ensures ReportExplained(Stop, old(m.connections).Keys, nodes, w, Dedup(nodeIds), report)
    ensures forall k :: k in m.pending ==> k.request != r
    ensures seen <= |w.env| && AgreeOutside(m.ledger, RunLedger(old(m.ledger), w.env[..seen]), r)
  {
    ReportIsExplained(Stop, m.connections.Keys, nodes, w, r, nodeIds, begin, timeout);
    report, seen := Dispatch(Stop, m, r, nodeIds, nodes, w, begin, timeout);
  }
}
