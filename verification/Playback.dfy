/**
 Bulk play and stop commands: one future per reachable node, then the answers collected
 one node at a time while everything else on the event loop goes on.

 The rest of the server appears as a timed trace of manager events. A dispatch consumes it
 whenever it awaits; the theorems quantify over all of them. What the dispatch reports is
 then a recurrence on arrival times in which no future and no table occurs.
 */
module Playback {
  import opened Wrappers
  import opened Arithmetic
  import opened Manager

  datatype Command = Play | Stop

  // `SendFailed` and `Offline` both read "offline" to the client; they differ in their detail text.
  datatype Status =
    | Missing
    | Disabled
    | Offline
    | SendFailed
    | Started
    | Stopped
    | Failed(message: string)
    | Acknowledged
    | TimedOut

  datatype NodeResult = NodeResult(node: NodeId, status: Status)

  predicate Awaited(s: Status) {
    s.Started? || s.Stopped? || s.Failed? || s.Acknowledged? || s.TimedOut?
  }

  function FromAck(c: Command, ack: Ack): Status {
    match c
    case Play =>
      if ack.messageType == "PLAYBACK_STARTED" then Started
      else if ack.messageType == "PLAYBACK_ERROR" || ack.messageType == "ERROR"
      then Failed(ErrorText(ack, "Node reported a playback error"))
      else Acknowledged
    case Stop =>
      if ack.messageType == "PLAYBACK_STOPPED" then Stopped
      else if ack.messageType == "ERROR" then Failed(ErrorText(ack, "Node rejected the stop command"))
      else Acknowledged
  }

  function ErrorText(ack: Ack, default: string): string {
    if "errorMessage" in ack.payload then ack.payload["errorMessage"] else default
  }

  // ----- Order-preserving de-duplication -----

  predicate NoRepeats<T(==)>(s: seq<T>) {
    forall i, j :: 0 <= i < j < |s| ==> s[i] != s[j]
  }

  /** Keeps the first occurrence of everything in s, in order. */
  function Dedup(s: seq<NodeId>): (d: seq<NodeId>)
    ensures NoRepeats(d)
    ensures forall x :: x in d <==> x in s
  {
    if s == [] then []
    else
      var d, x := Dedup(s[..|s| - 1]), s[|s| - 1];
      assert s == s[..|s| - 1] + [x];
      if x in d then d else d + [x]
  }

  method Unique(s: seq<NodeId>) returns (d: seq<NodeId>)
    ensures d == Dedup(s)
  {
    d := [];
    for i := 0 to |s|
      invariant d == Dedup(s[..i])
    {
      assert s[..i + 1][..i] == s[..i];
      if s[i] !in d {
        d := d + [s[i]];
      }
    }
    assert s[..|s|] == s;
  }

  // ----- The rest of the server, as one dispatch sees it -----

  /** How sending to a node goes: whether the socket took the message, and how many events of the
      environment happen before it says so. */
  datatype SendStep = SendStep(ok: bool, during: nat)

  /** `env` happens at the times `at`. `lag` is how many events of the very instant in which a
      future is settled still run before the dispatch is resumed. */
  datatype World = World(env: seq<Event>, at: seq<int>, send: NodeId -> SendStep, lag: NodeId -> nat)

  ghost predicate Timed(w: World, begin: int) {
    && |w.at| == |w.env|
    && (forall i :: 0 <= i < |w.at| ==> begin <= w.at[i])
    && Sorted(w.at)
  }

  predicate Own(e: Event, r: RequestId) {
    (e.Send? || e.Cancel? || e.Expire?) && e.key.request == r
  }

  /** The request id r is fresh: only messages from nodes may carry it, besides this dispatch. */
  ghost predicate Rely(l: Ledger, w: World, r: RequestId) {
    && FreshSends(l, w.env)
    && (forall k :: k in l.fate || k in l.waiting ==> k.request != r)
    && (forall i :: 0 <= i < |w.env| ==> !Own(w.env[i], r))
  }

  /** What a ledger knows about one key. */
  datatype Entry = Entry(fate: Option<Settlement>, waiting: bool, slot: Option<nat>)

  function At(l: Ledger, k: Key): Entry {
    Entry(
      if k in l.fate then Some(l.fate[k]) else None,
      k in l.waiting,
      if k in l.slot then Some(l.slot[k]) else None)
  }

  function Known(x: Entry): (Option<Settlement>, bool) { (x.fate, x.waiting) }

  /** l and e agree on everything but the keys of request r. */
  ghost predicate AgreeOutside(l: Ledger, e: Ledger, r: RequestId) {
    l.up == e.up && forall k: Key :: k.request != r ==> Known(At(l, k)) == Known(At(e, k))
  }

  // ----- What a dispatch should report -----

  /** A node to which the command went out, and how many events had happened by then. */
  datatype Sent = Sent(node: NodeId, created: nat)

  datatype Plan = Plan(immediate: seq<NodeResult>, sent: seq<Sent>, cursor: nat)

  function Min(a: nat, b: nat): nat { if a <= b then a else b }

  function Max(a: int, b: int): int { if a <= b then b else a }

  /** What becomes of one node when q events have happened: reported at once, or sent to.
      The node table is the one read when the dispatch began; connectivity is the present one. */
  datatype Visited = Reported(status: Status, cursor: nat) | Dispatched(cursor: nat)

  function Visit(c: Command, up: set<NodeId>, nodes: map<NodeId, bool>, w: World, q: nat, n: NodeId): (v: Visited)
    requires q <= |w.env|
    ensures q <= v.cursor <= |w.env|
  {
    if n !in nodes then Reported(Missing, q)
    else if c.Play? && !nodes[n] then Reported(Disabled, q)
    else if !Up(up, w.env, q, n) then Reported(Offline, q)
    else
      var q' := Min(q + w.send(n).during, |w.env|);
      if w.send(n).ok then Dispatched(q') else Reported(SendFailed, q')
  }

  function PlanFor(c: Command, up: set<NodeId>, nodes: map<NodeId, bool>, w: World, ids: seq<NodeId>): (p: Plan)
    ensures p.cursor <= |w.env|
    ensures forall i :: 0 <= i < |p.sent| ==> p.sent[i].created <= p.cursor
  {
    if ids == [] then Plan([], [], 0)
    else
      var p, n := PlanFor(c, up, nodes, w, ids[..|ids| - 1]), ids[|ids| - 1];
      AddTo(p, n, Visit(c, up, nodes, w, p.cursor, n))
  }

  function AddTo(p: Plan, n: NodeId, v: Visited): Plan {
    match v
    case Reported(status, q) => Plan(p.immediate + [NodeResult(n, status)], p.sent, q)
    case Dispatched(q) => Plan(p.immediate, p.sent + [Sent(n, p.cursor)], q)
  }

  lemma PlanNext(c: Command, up: set<NodeId>, nodes: map<NodeId, bool>, w: World, ids: seq<NodeId>, i: nat)
    requires i < |ids|
    ensures var p := PlanFor(c, up, nodes, w, ids[..i]);
            PlanFor(c, up, nodes, w, ids[..i + 1]) == AddTo(p, ids[i], Visit(c, up, nodes, w, p.cursor, ids[i]))
  {
    assert ids[..i + 1][..i] == ids[..i];
  }

  function Clock(w: World, begin: int, q: nat): int
    requires |w.at| == |w.env| && q <= |w.env|
  {
    if q == 0 then begin else w.at[q - 1]
  }

  /** The event that settles x's future if nothing else does: the first message of that node
      with that request id, or disconnect of that node, after the command went out. */
  function Answer(w: World, r: RequestId, x: Sent): Option<nat>
    requires x.created <= |w.env|
  {
    First(w.env, x.created, |w.env|, Key(x.node, r))
  }

  function StatusOf(c: Command, e: Event): Status {
    if e.Resolve? then FromAck(c, e.ack) else TimedOut
  }

  datatype Collected = Collected(results: seq<NodeResult>, finish: int)

  /** Collecting one node after another, each within its own timeout: an answer counts when it
      has arrived by then, and an early answer costs no time. */
  function Collect(c: Command, w: World, r: RequestId, sent: seq<Sent>, start: int, timeout: nat): Collected
    requires |w.at| == |w.env|
    requires forall i :: 0 <= i < |sent| ==> sent[i].created <= |w.env|
  {
    if sent == [] then Collected([], start)
    else
      CollectOne(c, w, r, sent[|sent| - 1], Collect(c, w, r, sent[..|sent| - 1], start, timeout), timeout)
  }

  function CollectOne(c: Command, w: World, r: RequestId, x: Sent, done: Collected, timeout: nat): Collected
    requires x.created <= |w.env| == |w.at|
  {
    var a := Answer(w, r, x);
    if a.Some? && w.at[a.value] <= done.finish + timeout
    then Collected(done.results + [NodeResult(x.node, StatusOf(c, w.env[a.value]))], Max(done.finish, w.at[a.value]))
    else Collected(done.results + [NodeResult(x.node, TimedOut)], done.finish + timeout)
  }

  lemma CollectNext(c: Command, w: World, r: RequestId, sent: seq<Sent>, start: int, timeout: nat, i: nat)
    requires |w.at| == |w.env| && i < |sent|
    requires forall i :: 0 <= i < |sent| ==> sent[i].created <= |w.env|
    ensures Collect(c, w, r, sent[..i + 1], start, timeout) ==
            CollectOne(c, w, r, sent[i], Collect(c, w, r, sent[..i], start, timeout), timeout)
  {
    assert sent[..i + 1][..i] == sent[..i];
  }

  function Nodes(sent: seq<Sent>): seq<NodeId> {
    if sent == [] then [] else Nodes(sent[..|sent| - 1]) + [sent[|sent| - 1].node]
  }

  function Ids(results: seq<NodeResult>): seq<NodeId> {
    if results == [] then [] else Ids(results[..|results| - 1]) + [results[|results| - 1].node]
  }

  lemma NodesAppend(sent: seq<Sent>, x: Sent)
    ensures Nodes(sent + [x]) == Nodes(sent) + [x.node]
  {
    assert (sent + [x])[..|sent|] == sent;
  }

  /** The answer to the client, the nodes for which a COMMAND_SENT event was logged, and when. */
  datatype Report = Report(results: seq<NodeResult>, logged: seq<NodeId>, finish: int)

  function ReportFor(c: Command, up: set<NodeId>, nodes: map<NodeId, bool>, w: World, r: RequestId,
                     nodeIds: seq<NodeId>, begin: int, timeout: nat): Report
    requires |w.at| == |w.env|
  {
    var p := PlanFor(c, up, nodes, w, Dedup(nodeIds));
    var answers := Collect(c, w, r, p.sent, Clock(w, begin, p.cursor), timeout);
    Report(p.immediate + answers.results, Nodes(p.sent), answers.finish)
  }

  // ----- Keeping track of this dispatch's own futures -----

  function Closed(x: Entry, state: Settlement): Option<Settlement> {
    if x.fate == Some(Pending) then Some(state) else x.fate
  }

  /** A ledger steps key by key. */
  function StepEntry(x: Entry, connected: bool, sent: nat, e: Event, k: Key): Entry {
    match e
    case Disconnect(n) => if n == k.node && x.waiting then x.(fate := Closed(x, Cancelled), waiting := false) else x
    case Send(s) => if s == k && connected then Entry(Some(Pending), true, Some(sent)) else x
    case Resolve(s, a) => if s == k && x.waiting then x.(fate := Closed(x, Resolved(a)), waiting := false) else x
    case Cancel(s) => if s == k && x.waiting then x.(fate := Closed(x, Cancelled), waiting := false) else x
    case Expire(s) => if s == k && x.waiting then x.(fate := Closed(x, Cancelled)) else x
    case _ => x
  }

  lemma StepAt(l: Ledger, e: Event, k: Key)
    ensures At(StepLedger(l, e), k) == StepEntry(At(l, k), k.node in l.up, l.sent, e, k)
  {
  }

  /** When a node's command went out, and which future was created for it. */
  datatype Wait = Wait(created: nat, future: nat)

  /** k was sent when x.created events had happened; by event q its fate is what the first
      decisive event made it, and exactly an undecided key is still registered. */
  ghost predicate Tracks(l: Ledger, env: seq<Event>, x: Wait, q: nat, k: Key)
    requires x.created <= q <= |env|
  {
    At(l, k) == Entry(Some(FateBy(env, x.created, q, k)), First(env, x.created, q, k).None?, Some(x.future))
  }

  ghost predicate OwnTracked(l: Ledger, env: seq<Event>, r: RequestId, q: nat, open: map<NodeId, Wait>)
    requires q <= |env|
  {
    forall k: Key {:trigger At(l, k)} :: k.request == r && k.node in open ==>
      open[k.node].created <= q && Tracks(l, env, open[k.node], q, k)
  }

  ghost predicate OwnWithin(l: Ledger, r: RequestId, open: map<NodeId, Wait>, mine: set<NodeId>) {
    forall k: Key {:trigger At(l, k)} :: k.request == r ==>
      (At(l, k).waiting ==> k.node in open) && (At(l, k).fate.Some? ==> k.node in mine)
  }

  /** Between awaits: others' keys are where they would be without this dispatch, the open
      futures follow their first decisive event, and nothing else of request r is registered. */
  ghost predicate InFlight(l: Ledger, l0: Ledger, w: World, r: RequestId, q: nat,
                           open: map<NodeId, Wait>, mine: set<NodeId>)
  {
    && q <= |w.env|
    && AgreeOutside(l, RunLedger(l0, w.env[..q]), r)
    && OwnTracked(l, w.env, r, q, open)
    && OwnWithin(l, r, open, mine)
  }

  lemma AgreeStep(l: Ledger, e: Ledger, r: RequestId, ev: Event)
    requires AgreeOutside(l, e, r) && !Own(ev, r)
    ensures AgreeOutside(StepLedger(l, ev), StepLedger(e, ev), r)
  {
    forall k: Key | k.request != r ensures Known(At(StepLedger(l, ev), k)) == Known(At(StepLedger(e, ev), k)) {
      StepAt(l, ev, k);
      StepAt(e, ev, k);
    }
  }

  lemma AgreeOwnStep(l: Ledger, e: Ledger, r: RequestId, ev: Event)
    requires AgreeOutside(l, e, r) && Own(ev, r)
    ensures AgreeOutside(StepLedger(l, ev), e, r)
  {
    forall k: Key | k.request != r ensures Known(At(StepLedger(l, ev), k)) == Known(At(e, k)) {
      StepAt(l, ev, k);
    }
  }

  lemma TracksEnv(l: Ledger, env: seq<Event>, x: Wait, q: nat, k: Key)
    requires x.created <= q < |env|
    requires Tracks(l, env, x, q, k)
    requires !Own(env[q], k.request)
    ensures Tracks(StepLedger(l, env[q]), env, x, q + 1, k)
  {
    StepAt(l, env[q], k);
  }

  lemma EnvStep(l: Ledger, l0: Ledger, w: World, r: RequestId, q: nat, open: map<NodeId, Wait>, mine: set<NodeId>)
    requires Rely(l0, w, r) && q < |w.env|
    requires InFlight(l, l0, w, r, q, open, mine)
    ensures w.env[q].Send? ==> w.env[q].key !in l.fate
    ensures InFlight(StepLedger(l, w.env[q]), l0, w, r, q + 1, open, mine)
  {
    var e, m := w.env[q], StepLedger(l, w.env[q]);
    assert !Own(e, r);
    assert w.env[..q + 1][..q] == w.env[..q];
    AgreeStep(l, RunLedger(l0, w.env[..q]), r, e);
    if e.Send? {
      KeysOfRun(l0, w.env[..q], e.key);
      assert At(RunLedger(l0, w.env[..q]), e.key).fate.None?;
      assert At(l, e.key).fate.None?;
    }
    forall k: Key | k.request == r
      ensures k.node in open ==> open[k.node].created <= q && Tracks(m, w.env, open[k.node], q + 1, k)
      ensures At(m, k).waiting ==> k.node in open
      ensures At(m, k).fate.Some? ==> k.node in mine
    {
      StepAt(l, e, k);
      assert At(l, k) == At(l, k);
      if k.node in open { TracksEnv(l, w.env, open[k.node], q, k); }
    }
  }

  /** This dispatch's own actions touch its own key and nothing else. */
  lemma OwnStep(l: Ledger, l0: Ledger, w: World, r: RequestId, q: nat,
                open: map<NodeId, Wait>, mine: set<NodeId>, e: Event,
                open': map<NodeId, Wait>, mine': set<NodeId>)
    requires InFlight(l, l0, w, r, q, open, mine)
    requires (e.Send? || e.Cancel?) && e.key.request == r
    requires e.Send? ==> e.key.node in l.up && open' == open[e.key.node := Wait(q, l.sent)]
    requires e.Cancel? ==> open' == open - {e.key.node}
    requires mine <= mine' && e.key.node in mine'
    ensures InFlight(StepLedger(l, e), l0, w, r, q, open', mine')
  {
    var m := StepLedger(l, e);
    AgreeOwnStep(l, RunLedger(l0, w.env[..q]), r, e);
    forall k: Key | k.request == r
      ensures k.node in open' ==> open'[k.node].created <= q && Tracks(m, w.env, open'[k.node], q, k)
      ensures At(m, k).waiting ==> k.node in open'
      ensures At(m, k).fate.Some? ==> k.node in mine'
    {
      StepAt(l, e, k);
    }
  }

  lemma OwnKeyIsFresh(l: Ledger, l0: Ledger, w: World, r: RequestId, q: nat,
                      open: map<NodeId, Wait>, mine: set<NodeId>, n: NodeId)
    requires InFlight(l, l0, w, r, q, open, mine) && n !in mine
    ensures Key(n, r) !in l.fate
  {
    assert At(l, Key(n, r)).fate.None?;
  }

  lemma ConnectedIffUp(l: Ledger, l0: Ledger, w: World, r: RequestId, q: nat,
                       open: map<NodeId, Wait>, mine: set<NodeId>, n: NodeId)
    requires InFlight(l, l0, w, r, q, open, mine)
    ensures n in l.up <==> Up(l0.up.Keys, w.env, q, n)
  {
    UpAfterRun(l0, w.env, q, n);
  }

  lemma InFlightWidens(l: Ledger, l0: Ledger, w: World, r: RequestId, q: nat,
                       open: map<NodeId, Wait>, mine: set<NodeId>, n: NodeId)
    requires InFlight(l, l0, w, r, q, open, mine)
    ensures InFlight(l, l0, w, r, q, open, mine + {n})
  {
  }

  lemma FirstIsStable(env: seq<Event>, from: nat, q: nat, to: nat, k: Key)
    requires from <= q <= to <= |env|
    ensures First(env, from, q, k).Some? ==> First(env, from, to, k) == First(env, from, q, k)
    ensures First(env, from, q, k).None? && First(env, from, to, k).Some? ==> First(env, from, to, k).value >= q
  {
  }

  // ----- The dispatch -----

  /** The environment takes its turn: events from..to happen. */
  method PlayEnv(m: ConnectionManager, w: World, from: nat, to: nat,
                 ghost l0: Ledger, r: RequestId, ghost open: map<NodeId, Wait>, ghost mine: set<NodeId>)
    requires from <= to <= |w.env|
    requires m.Valid() && Rely(l0, w, r) && InFlight(m.ledger, l0, w, r, from, open, mine)
    modifies m
    ensures m.Valid() && InFlight(m.ledger, l0, w, r, to, open, mine)
  {
    for q := from to to
      invariant m.Valid() && InFlight(m.ledger, l0, w, r, q, open, mine)
    {
      EnvStep(m.ledger, l0, w, r, q, open, mine);
      m.Interleave(w.env[q]);
    }
  }

  /** What has happened by now is what lies before q. */
  predicate Synced(w: World, q: nat, now: int)
    requires |w.at| == |w.env|
  {
    q <= |w.env| && (q > 0 ==> w.at[q - 1] <= now) && (q < |w.env| ==> now <= w.at[q])
  }

  ghost predicate Waits(sent: seq<Sent>, waits: seq<nat>, from: nat, open: map<NodeId, Wait>) {
    && |waits| == |sent| && from <= |sent|
    && (forall i :: from <= i < |sent| ==>
          sent[i].node in open && open[sent[i].node] == Wait(sent[i].created, waits[i]))
  }

  ghost predicate DistinctNodes(sent: seq<Sent>) {
    forall i, j :: 0 <= i < j < |sent| ==> sent[i].node != sent[j].node
  }

  ghost predicate NodesIn(sent: seq<Sent>, mine: set<NodeId>) {
    forall i :: 0 <= i < |sent| ==> sent[i].node in mine
  }

  /** The futures still to be waited on: waits[i] is the one created for sent[i], and `open`
      holds those from position `from` on. */
  ghost predicate Outstanding(sent: seq<Sent>, waits: seq<nat>, from: nat, open: map<NodeId, Wait>, mine: set<NodeId>) {
    && Waits(sent, waits, from, open) && |open| == |sent| - from
    && open.Keys <= mine
    && NodesIn(sent, mine) && DistinctNodes(sent)
  }

  lemma OutstandingGrows(sent: seq<Sent>, waits: seq<nat>, open: map<NodeId, Wait>, mine: set<NodeId>, x: Sent, f: nat)
    requires Outstanding(sent, waits, 0, open, mine) && x.node !in mine
    ensures Outstanding(sent + [x], waits + [f], 0, open[x.node := Wait(x.created, f)], mine + {x.node})
  {
    assert x.node !in open;
  }

  lemma OutstandingShrinks(sent: seq<Sent>, waits: seq<nat>, from: nat, open: map<NodeId, Wait>, mine: set<NodeId>)
    requires Outstanding(sent, waits, from, open, mine) && from < |sent|
    ensures Outstanding(sent, waits, from + 1, open - {sent[from].node}, mine)
  {
    var less := open - {sent[from].node};
    assert open == less[sent[from].node := open[sent[from].node]];
  }

  method OpenFuture(m: ConnectionManager, r: RequestId, n: NodeId, w: World, q: nat,
                    ghost l0: Ledger, ghost open: map<NodeId, Wait>, ghost mine: set<NodeId>)
    returns (f: nat)
    requires m.Valid() && InFlight(m.ledger, l0, w, r, q, open, mine) && m.IsConnected(n) && n !in mine
    modifies m
    ensures m.Valid() && InFlight(m.ledger, l0, w, r, q, open[n := Wait(q, f)], mine + {n})
  {
    OwnKeyIsFresh(m.ledger, l0, w, r, q, open, mine, n);
    OwnStep(m.ledger, l0, w, r, q, open, mine, Send(Key(n, r)), open[n := Wait(q, m.ledger.sent)], mine + {n});
    f := m.CreateAckFuture(Key(n, r));
  }

  method CloseFuture(m: ConnectionManager, r: RequestId, n: NodeId, w: World, q: nat,
                     ghost l0: Ledger, ghost open: map<NodeId, Wait>, ghost mine: set<NodeId>)
    requires m.Valid() && InFlight(m.ledger, l0, w, r, q, open, mine) && n in mine
    modifies m
    ensures m.Valid() && InFlight(m.ledger, l0, w, r, q, open - {n}, mine)
  {
    OwnStep(m.ledger, l0, w, r, q, open, mine, Cancel(Key(n, r)), open - {n}, mine);
    m.CancelAck(Key(n, r));
  }

  lemma AddedAndRemoved(open: map<NodeId, Wait>, n: NodeId, x: Wait)
    requires n !in open
    ensures open[n := x] - {n} == open
  {
  }

  /** Sends the command to one connected node: the future first, so that an answer that
      overtakes the send finds it. A failed send withdraws it again. */
  method SendTo(m: ConnectionManager, r: RequestId, n: NodeId, w: World, q: nat,
                ghost l0: Ledger, ghost open: map<NodeId, Wait>, ghost mine: set<NodeId>)
    returns (ok: bool, f: nat, q': nat)
    requires m.Valid() && Rely(l0, w, r) && InFlight(m.ledger, l0, w, r, q, open, mine)
    requires m.IsConnected(n) && n !in mine && open.Keys <= mine
    modifies m
    ensures m.Valid()
    ensures ok == w.send(n).ok && q' == Min(q + w.send(n).during, |w.env|)
    ensures InFlight(m.ledger, l0, w, r, q', if ok then open[n := Wait(q, f)] else open, mine + {n})
  {
    f := OpenFuture(m, r, n, w, q, l0, open, mine);
    q' := Min(q + w.send(n).during, |w.env|);
    PlayEnv(m, w, q, q', l0, r, open[n := Wait(q, f)], mine + {n});
    ok := w.send(n).ok;
    if !ok {
      CloseFuture(m, r, n, w, q', l0, open[n := Wait(q, f)], mine + {n});
      AddedAndRemoved(open, n, Wait(q, f));
    }
  }

  method VisitNode(c: Command, m: ConnectionManager, r: RequestId, nodes: map<NodeId, bool>, n: NodeId,
                   w: World, q: nat, ghost l0: Ledger, ghost open: map<NodeId, Wait>, ghost mine: set<NodeId>)
    returns (v: Visited, f: nat)
    requires m.Valid() && Rely(l0, w, r) && InFlight(m.ledger, l0, w, r, q, open, mine)
    requires n !in mine && open.Keys <= mine
    modifies m
    ensures m.Valid()
    ensures v == Visit(c, l0.up.Keys, nodes, w, q, n)
    ensures InFlight(m.ledger, l0, w, r, v.cursor, if v.Dispatched? then open[n := Wait(q, f)] else open, mine + {n})
  {
    ConnectedIffUp(m.ledger, l0, w, r, q, open, mine, n);
    InFlightWidens(m.ledger, l0, w, r, q, open, mine, n);
    if n !in nodes {
      return Reported(Missing, q), 0;
    }
    if c.Play? && !nodes[n] {
      return Reported(Disabled, q), 0;
    }
    if !m.IsConnected(n) {
      return Reported(Offline, q), 0;
    }
    var ok, future, q' := SendTo(m, r, n, w, q, l0, open, mine);
    v, f := if ok then Dispatched(q') else Reported(SendFailed, q'), future;
  }

  /** The results so far and the commands out, with what was logged and the futures to wait on. */
  datatype Outbox = Outbox(plan: Plan, logged: seq<NodeId>, waits: seq<nat>)

  ghost predicate Kept(o: Outbox, open: map<NodeId, Wait>, mine: set<NodeId>) {
    Outstanding(o.plan.sent, o.waits, 0, open, mine) && o.logged == Nodes(o.plan.sent)
  }

  ghost predicate Sending(l: Ledger, l0: Ledger, w: World, r: RequestId, o: Outbox,
                          open: map<NodeId, Wait>, mine: set<NodeId>) {
    InFlight(l, l0, w, r, o.plan.cursor, open, mine) && Kept(o, open, mine)
  }

  method SendNext(c: Command, m: ConnectionManager, r: RequestId, nodes: map<NodeId, bool>, n: NodeId,
                  w: World, o: Outbox,
                  ghost l0: Ledger, ghost open: map<NodeId, Wait>, ghost mine: set<NodeId>)
    returns (o': Outbox, ghost open': map<NodeId, Wait>)
    requires m.Valid() && Rely(l0, w, r) && Sending(m.ledger, l0, w, r, o, open, mine) && n !in mine
    modifies m
    ensures m.Valid()
    ensures o'.plan == AddTo(o.plan, n, Visit(c, l0.up.Keys, nodes, w, o.plan.cursor, n))
    ensures Sending(m.ledger, l0, w, r, o', open', mine + {n})
  {
    var q := o.plan.cursor;
    var v, f := VisitNode(c, m, r, nodes, n, w, q, l0, open, mine);
    match v {
      case Dispatched(q') =>
        OutstandingGrows(o.plan.sent, o.waits, open, mine, Sent(n, q), f);
        NodesAppend(o.plan.sent, Sent(n, q));
        open' := open[n := Wait(q, f)];
        o' := Outbox(Plan(o.plan.immediate, o.plan.sent + [Sent(n, q)], q'), o.logged + [n], o.waits + [f]);
      case Reported(status, q') =>
        open' := open;
        o' := o.(plan := Plan(o.plan.immediate + [NodeResult(n, status)], o.plan.sent, q'));
    }
  }

  lemma NothingSentYet(l0: Ledger, w: World, r: RequestId)
    requires Rely(l0, w, r)
    ensures Sending(l0, l0, w, r, Outbox(Plan([], [], 0), [], []), map[], {})
  {
    assert w.env[..0] == [];
  }

  /** Sends the command to every node that can take it. */
  method SendAll(c: Command, m: ConnectionManager, r: RequestId, ids: seq<NodeId>, nodes: map<NodeId, bool>,
                 w: World, ghost l0: Ledger)
    returns (o: Outbox, ghost open: map<NodeId, Wait>, ghost mine: set<NodeId>)
    requires m.Valid() && m.ledger == l0 && Rely(l0, w, r) && NoRepeats(ids)
    modifies m
    ensures m.Valid()
    ensures o.plan == PlanFor(c, l0.up.Keys, nodes, w, ids)
    ensures Sending(m.ledger, l0, w, r, o, open, mine)
  {
    o, open, mine := Outbox(Plan([], [], 0), [], []), map[], {};
    NothingSentYet(l0, w, r);
    for i := 0 to |ids|
      invariant m.Valid()
      invariant forall j :: i <= j < |ids| ==> ids[j] !in mine
      invariant o.plan == PlanFor(c, l0.up.Keys, nodes, w, ids[..i])
      invariant Sending(m.ledger, l0, w, r, o, open, mine)
    {
      PlanNext(c, l0.up.Keys, nodes, w, ids, i);
      o, open := SendNext(c, m, r, nodes, ids[i], w, o, l0, open, mine);
      mine := mine + {ids[i]};
    }
    assert ids[..|ids|] == ids;
  }

  /** The future's own state, seen through the table. */
  lemma StateIsFate(t: Table, l: Ledger, l0: Ledger, w: World, r: RequestId, q: nat,
                    open: map<NodeId, Wait>, mine: set<NodeId>, n: NodeId)
    requires TableInv(t, l) && InFlight(l, l0, w, r, q, open, mine) && n in open
    ensures open[n].created <= q && open[n].future < |t.futures|
    ensures t.futures[open[n].future] == Future(Key(n, r), FateBy(w.env, open[n].created, q, Key(n, r)))
  {
    assert At(l, Key(n, r)).fate.Some? ==> Key(n, r) in l.fate;
    assert Tracks(l, w.env, open[n], q, Key(n, r));
    assert At(l, Key(n, r)).fate == Some(l.fate[Key(n, r)]);
    assert At(l, Key(n, r)).slot == Some(l.slot[Key(n, r)]);
  }

  lemma DecidedIsClosed(l: Ledger, l0: Ledger, w: World, r: RequestId, q: nat,
                        open: map<NodeId, Wait>, mine: set<NodeId>, n: NodeId)
    requires InFlight(l, l0, w, r, q, open, mine) && n in open
    requires open[n].created <= q && !FateBy(w.env, open[n].created, q, Key(n, r)).Pending?
    ensures InFlight(l, l0, w, r, q, open - {n}, mine)
  {
    var less := open - {n};
    forall k: Key | k.request == r && k.node in less
      ensures less[k.node].created <= q && Tracks(l, w.env, less[k.node], q, k)
    {
      assert At(l, k) == At(l, k);
    }
    assert !At(l, Key(n, r)).waiting;
  }

  lemma ExpireThenCancel(l: Ledger, k: Key)
    requires LedgerInv(l)
    ensures StepLedger(StepLedger(l, Expire(k)), Cancel(k)) == StepLedger(l, Cancel(k))
  {
  }

  /** The deadline passes: the wait cancels the future, and the dispatch withdraws the key. */
  method TimeOut(m: ConnectionManager, r: RequestId, n: NodeId, f: nat, w: World, q: nat,
                 ghost l0: Ledger, ghost open: map<NodeId, Wait>, ghost mine: set<NodeId>)
    requires m.Valid() && InFlight(m.ledger, l0, w, r, q, open, mine) && n in mine
    requires f < |m.futures| && m.futures[f] == Future(Key(n, r), Pending)
    modifies m
    ensures m.Valid() && InFlight(m.ledger, l0, w, r, q, open - {n}, mine)
  {
    OwnStep(m.ledger, l0, w, r, q, open, mine, Cancel(Key(n, r)), open - {n}, mine);
    ExpireThenCancel(m.ledger, Key(n, r));
    m.ExpireFuture(f);
    m.CancelAck(Key(n, r));
  }

  predicate Undecided(env: seq<Event>, created: nat, q: nat, k: Key) {
    created <= q <= |env| && First(env, created, q, k).None?
  }

  predicate Elapsed(w: World, q: nat, now: int, timeout: nat, q': nat, now': int) {
    && |w.at| == |w.env| && Sorted(w.at) && q <= q' <= |w.env|
    && Synced(w, q, now) && Synced(w, q', now')
    && (if q' == q then now' == now else now' == w.at[q' - 1] <= now + timeout)
  }

  /** A wait begun at (q, now) has come to (q', now') and had seen no decision before its last event. */
  predicate Watched(w: World, created: nat, k: Key, q: nat, now: int, timeout: nat, q': nat, now': int) {
    && Elapsed(w, q, now, timeout, q', now')
    && created <= q
    && (q' > q ==> Undecided(w.env, created, q' - 1, k))
  }

  ghost predicate Watching(l: Ledger, l0: Ledger, w: World, r: RequestId, n: NodeId, q: nat, now: int, timeout: nat,
                           q': nat, now': int, open: map<NodeId, Wait>, mine: set<NodeId>) {
    && InFlight(l, l0, w, r, q', open, mine)
    && n in open && Watched(w, open[n].created, Key(n, r), q, now, timeout, q', now')
  }

  lemma WatchGoesOn(w: World, created: nat, k: Key, q: nat, now: int, timeout: nat, seen: nat, clock: int, q': nat)
    requires Watched(w, created, k, q, now, timeout, seen, clock) && q' == seen + 1
    requires seen < |w.env| && w.at[seen] <= now + timeout && Undecided(w.env, created, seen, k)
    ensures Watched(w, created, k, q, now, timeout, q', w.at[seen])
  {
  }

  lemma WatchEnds(w: World, created: nat, k: Key, q: nat, now: int, timeout: nat, q': nat, now': int)
    requires Watched(w, created, k, q, now, timeout, q', now')
    requires !FateBy(w.env, created, q', k).Pending?
    ensures var j := First(w.env, created, |w.env|, k);
            j.Some? && w.at[j.value] <= now + timeout && now' == Max(now, w.at[j.value])
            && FateBy(w.env, created, q', k) == Verdict(w.env[j.value])
  {
    FirstIsStable(w.env, created, q', |w.env|, k);
  }

  lemma WatchFails(w: World, created: nat, k: Key, q: nat, now: int, timeout: nat, q': nat, now': int)
    requires Watched(w, created, k, q, now, timeout, q', now')
    requires FateBy(w.env, created, q', k).Pending?
    requires q' < |w.env| ==> now + timeout < w.at[q']
    ensures var j := First(w.env, created, |w.env|, k);
            j.Some? ==> now + timeout < w.at[j.value]
    ensures Synced(w, q', now + timeout)
  {
    FirstIsStable(w.env, created, q', |w.env|, k);
  }

  /** One event of the environment while the future created for n is being waited on. */
  method WatchOne(m: ConnectionManager, r: RequestId, n: NodeId, w: World, q: nat,
                  ghost l0: Ledger, ghost open: map<NodeId, Wait>, ghost mine: set<NodeId>)
    returns (q': nat)
    requires m.Valid() && Rely(l0, w, r) && q < |w.env| && InFlight(m.ledger, l0, w, r, q, open, mine)
    requires n in open && open[n].future < |m.futures| && m.futures[open[n].future].state.Pending?
    modifies m
    ensures q' == q + 1
    ensures m.Valid() && InFlight(m.ledger, l0, w, r, q', open, mine)
    ensures Undecided(w.env, open[n].created, q, Key(n, r))
    ensures open[n].future < |m.futures|
  {
    StateIsFate(m.Contents(), m.ledger, l0, w, r, q, open, mine, n);
    q' := q + 1;
    PlayEnv(m, w, q, q', l0, r, open, mine);
    StateIsFate(m.Contents(), m.ledger, l0, w, r, q', open, mine, n);
  }

  /** Waits until the future created for n is settled or the deadline passes, whichever comes
      first; events of the deadline's own instant still count. */
  method Await(m: ConnectionManager, r: RequestId, n: NodeId, f: nat, w: World, q: nat, now: int, timeout: nat,
               ghost l0: Ledger, ghost open: map<NodeId, Wait>, ghost mine: set<NodeId>)
    returns (q': nat, now': int)
    requires m.Valid() && Rely(l0, w, r) && InFlight(m.ledger, l0, w, r, q, open, mine)
    requires n in open && open[n].future == f < |m.futures|
    requires Watched(w, open[n].created, Key(n, r), q, now, timeout, q, now)
    modifies m
    ensures m.Valid() && InFlight(m.ledger, l0, w, r, q', open, mine)
    ensures Watched(w, open[n].created, Key(n, r), q, now, timeout, q', now')
    ensures f < |m.futures|
    ensures m.futures[f].state.Pending? && q' < |w.env| ==> now + timeout < w.at[q']
  {
    q', now' := q, now;
    while m.futures[f].state.Pending? && q' < |w.env| && w.at[q'] <= now + timeout
      invariant m.Valid() && f < |m.futures|
      invariant Watching(m.ledger, l0, w, r, n, q, now, timeout, q', now', open, mine)
      decreases |w.env| - q'
    {
      ghost var seen, clock := q', now';
      now' := w.at[q'];
      q' := WatchOne(m, r, n, w, q', l0, open, mine);
      WatchGoesOn(w, open[n].created, Key(n, r), q, now, timeout, seen, clock, q');
    }
  }

  /** The dispatch is not resumed at once: up to `lag` more events of that same instant go first. */
  method Resume(m: ConnectionManager, r: RequestId, n: NodeId, w: World, q: nat, now: int,
                ghost l0: Ledger, ghost open: map<NodeId, Wait>, ghost mine: set<NodeId>)
    returns (q': nat)
    requires m.Valid() && Rely(l0, w, r) && InFlight(m.ledger, l0, w, r, q, open, mine)
    requires |w.at| == |w.env| && Synced(w, q, now) && Sorted(w.at)
    modifies m
    ensures q <= q' && m.Valid() && InFlight(m.ledger, l0, w, r, q', open, mine)
    ensures Synced(w, q', now)
  {
    q' := q;
    var left := w.lag(n);
    while left > 0 && q' < |w.env| && w.at[q'] == now
      invariant q <= q' && m.Valid() && InFlight(m.ledger, l0, w, r, q', open, mine)
      invariant Synced(w, q', now)
      decreases left
    {
      var next := q' + 1;
      PlayEnv(m, w, q', next, l0, r, open, mine);
      q', left := next, left - 1;
    }
  }

  /** Waiting for one node: how its future was settled, and when the dispatch moves on. */
  predicate Waited(w: World, r: RequestId, x: Sent, now: int, timeout: nat, state: Settlement, now': int)
    requires x.created <= |w.env| == |w.at|
  {
    var a := Answer(w, r, x);
    if a.Some? && w.at[a.value] <= now + timeout
    then state == Verdict(w.env[a.value]) && now' == Max(now, w.at[a.value])
    else state == Cancelled && now' == now + timeout
  }

  lemma WaitedCollects(c: Command, w: World, r: RequestId, x: Sent, done: Collected, timeout: nat,
                       state: Settlement, now': int)
    requires x.created <= |w.env| == |w.at| && Waited(w, r, x, done.finish, timeout, state, now')
    ensures CollectOne(c, w, r, x, done, timeout) ==
            Collected(done.results + [NodeResult(x.node, if state.Resolved? then FromAck(c, state.ack) else TimedOut)],
                      now')
  {
  }

  /** The future created for n has been settled: the dispatch resumes, and takes what it finds. */
  method TakeAnswer(m: ConnectionManager, r: RequestId, n: NodeId, f: nat, w: World, q: nat, now: int,
                    ghost l0: Ledger, ghost open: map<NodeId, Wait>, ghost mine: set<NodeId>)
    returns (state: Settlement, q': nat)
    requires m.Valid() && Rely(l0, w, r) && InFlight(m.ledger, l0, w, r, q, open, mine)
    requires |w.at| == |w.env| && Synced(w, q, now) && Sorted(w.at)
    requires n in open && open[n].future == f && n in mine
    requires open[n].created <= q && !FateBy(w.env, open[n].created, q, Key(n, r)).Pending?
    modifies m
    ensures m.Valid() && InFlight(m.ledger, l0, w, r, q', open - {n}, mine)
    ensures Synced(w, q', now) && state == FateBy(w.env, open[n].created, q, Key(n, r))
  {
    q' := Resume(m, r, n, w, q, now, l0, open, mine);
    FirstIsStable(w.env, open[n].created, q, q', Key(n, r));
    StateIsFate(m.Contents(), m.ledger, l0, w, r, q', open, mine, n);
    state := m.futures[f].state;
    if state.Cancelled? {
      CloseFuture(m, r, n, w, q', l0, open, mine);
    } else {
      DecidedIsClosed(m.ledger, l0, w, r, q', open, mine, n);
    }
  }

  method WaitFor(m: ConnectionManager, r: RequestId, x: Sent, f: nat, w: World, q: nat, now: int, timeout: nat,
                 ghost l0: Ledger, ghost open: map<NodeId, Wait>, ghost mine: set<NodeId>)
    returns (state: Settlement, q': nat, now': int)
    requires m.Valid() && Rely(l0, w, r) && InFlight(m.ledger, l0, w, r, q, open, mine)
    requires |w.at| == |w.env| && Synced(w, q, now) && Sorted(w.at)
    requires x.node in open && open[x.node] == Wait(x.created, f) && x.node in mine
    modifies m
    ensures m.Valid() && InFlight(m.ledger, l0, w, r, q', open - {x.node}, mine)
    ensures Synced(w, q', now')
    ensures x.created <= |w.env| && Waited(w, r, x, now, timeout, state, now')
  {
    StateIsFate(m.Contents(), m.ledger, l0, w, r, q, open, mine, x.node);
    q', now' := Await(m, r, x.node, f, w, q, now, timeout, l0, open, mine);
    StateIsFate(m.Contents(), m.ledger, l0, w, r, q', open, mine, x.node);
    if m.futures[f].state.Pending? {
      WatchFails(w, x.created, Key(x.node, r), q, now, timeout, q', now');
      TimeOut(m, r, x.node, f, w, q', l0, open, mine);
      return Cancelled, q', now + timeout;
    }
    WatchEnds(w, x.created, Key(x.node, r), q, now, timeout, q', now');
    state, q' := TakeAnswer(m, r, x.node, f, w, q', now', l0, open, mine);
  }

  /** Collects the answers in the order in which the commands went out. */
  method CollectAll(c: Command, m: ConnectionManager, r: RequestId, sent: seq<Sent>, waits: seq<nat>,
                    w: World, q: nat, start: int, timeout: nat,
                    ghost l0: Ledger, ghost open0: map<NodeId, Wait>, ghost mine: set<NodeId>)
    returns (results: seq<NodeResult>, finish: int, ghost seen: nat)
    requires m.Valid() && Rely(l0, w, r) && InFlight(m.ledger, l0, w, r, q, open0, mine)
    requires |w.at| == |w.env| && Synced(w, q, start) && Sorted(w.at)
    requires Outstanding(sent, waits, 0, open0, mine)
    requires forall i :: 0 <= i < |sent| ==> sent[i].created <= |w.env|
    modifies m
    ensures m.Valid() && InFlight(m.ledger, l0, w, r, seen, map[], mine)
    ensures Collected(results, finish) == Collect(c, w, r, sent, start, timeout)
  {
    ghost var open := open0;
    var at := q;
    results, finish := [], start;
    for i := 0 to |sent|
      invariant m.Valid() && InFlight(m.ledger, l0, w, r, at, open, mine)
      invariant Synced(w, at, finish)
      invariant Outstanding(sent, waits, i, open, mine)
      invariant Collected(results, finish) == Collect(c, w, r, sent[..i], start, timeout)
    {
      var x := sent[i];
      CollectNext(c, w, r, sent, start, timeout, i);
      var state, at', finish' := WaitFor(m, r, x, waits[i], w, at, finish, timeout, l0, open, mine);
      OutstandingShrinks(sent, waits, i, open, mine);
      WaitedCollects(c, w, r, x, Collected(results, finish), timeout, state, finish');
      results := results + [NodeResult(x.node, if state.Resolved? then FromAck(c, state.ack) else TimedOut)];
      open, at, finish := open - {x.node}, at', finish';
    }
    seen := at;
    assert sent[..|sent|] == sent;
    assert open == map[];
  }

  method Dispatch(c: Command, m: ConnectionManager, r: RequestId, nodeIds: seq<NodeId>, nodes: map<NodeId, bool>,
                  w: World, begin: int, timeout: nat)
    returns (report: Report, ghost seen: nat)
    requires m.Valid() && Rely(m.ledger, w, r) && Timed(w, begin)
    modifies m
    ensures m.Valid()
    ensures report == ReportFor(c, old(m.connections).Keys, nodes, w, r, nodeIds, begin, timeout)
    ensures forall k :: k in m.pending ==> k.request != r
    ensures seen <= |w.env| && AgreeOutside(m.ledger, RunLedger(old(m.ledger), w.env[..seen]), r)
  {
    ghost var l0 := m.ledger;
    var ids := Unique(nodeIds);
    var o, open, mine := SendAll(c, m, r, ids, nodes, w, l0);
    var start := Clock(w, begin, o.plan.cursor);
    var answers, finish, end :=
      CollectAll(c, m, r, o.plan.sent, o.waits, w, o.plan.cursor, start, timeout, l0, open, mine);
    seen := end;
    report := Report(o.plan.immediate + answers, o.logged, finish);
    NothingLeft(m.Contents(), m.ledger, r, mine);
  }

  lemma NothingLeft(t: Table, l: Ledger, r: RequestId, mine: set<NodeId>)
    requires TableInv(t, l) && OwnWithin(l, r, map[], mine)
    ensures forall k :: k in t.pending ==> k.request != r
  {
    forall k | k in t.pending ensures k.request != r {
      assert At(l, k).waiting;
    }
  }
}
