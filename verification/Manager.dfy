/**
 The connection manager: live sockets, and the table of command
 acknowledgements that some dispatch is still waiting for.

 `Table` is the manager as the server keeps it: a dictionary from
 (node, request) to futures that live on the event loop and are settled in place.
 `Ledger` is the same information with no futures in it: what became of each key.
 Every atomic action of the server is an `Event`; a run is a sequence of them.
 */
module Manager {
  import opened Wrappers

  type NodeId = string
  type RequestId = string
  type Socket = nat

  datatype Key = Key(node: NodeId, request: RequestId)

  datatype Ack = Ack(messageType: string, payload: map<string, string>)

  datatype Settlement = Pending | Resolved(ack: Ack) | Cancelled

  // A future carries the key it was created under; its identity is its index on the event loop.
  datatype Future = Future(key: Key, state: Settlement)

  datatype Table = Table(connections: map<NodeId, Socket>, pending: map<Key, nat>, futures: seq<Future>)

  /** What happens between two awaits. `Send` is the connectivity test together with the
      creation of the future; `Expire` is the deadline of the wait on that key's future;
      `Idle` is time passing. */
  datatype Event =
    | Idle
    | Connect(node: NodeId, socket: Socket)
    | Disconnect(node: NodeId)
    | Send(key: Key)
    | Resolve(key: Key, ack: Ack)
    | Cancel(key: Key)
    | Expire(key: Key)

  // ----- The table, as the server updates it -----

  function Settle(futures: seq<Future>, f: nat, state: Settlement): seq<Future> {
    if f < |futures| && futures[f].state.Pending? then futures[f := futures[f].(state := state)] else futures
  }

  function Pop(t: Table, k: Key, state: Settlement): Table {
    if k in t.pending
    then t.(pending := t.pending - {k}, futures := Settle(t.futures, t.pending[k], state))
    else t
  }

  predicate Registered(pending: map<Key, nat>, k: Key, f: nat) {
    k in pending && pending[k] == f
  }

  function Withdraw(futures: seq<Future>, pending: map<Key, nat>, n: NodeId): seq<Future> {
    seq(|futures|, (f: nat) requires f < |futures| =>
      if futures[f].key.node == n && Registered(pending, futures[f].key, f) && futures[f].state.Pending?
      then futures[f].(state := Cancelled)
      else futures[f])
  }

  function Drop(t: Table, n: NodeId): Table {
    Table(
      t.connections - {n},
      map k | k in t.pending && k.node != n :: t.pending[k],
      Withdraw(t.futures, t.pending, n))
  }

  function Create(t: Table, k: Key): Table {
    t.(pending := t.pending[k := |t.futures|], futures := t.futures + [Future(k, Pending)])
  }

  function Step(t: Table, e: Event): Table {
    match e
    case Idle => t
    case Connect(n, s) => t.(connections := t.connections[n := s])
    case Disconnect(n) => Drop(t, n)
    case Send(k) => if k.node in t.connections then Create(t, k) else t
    case Resolve(k, a) => Pop(t, k, Resolved(a))
    case Cancel(k) => Pop(t, k, Cancelled)
    case Expire(k) =>
      if k in t.pending then t.(futures := Settle(t.futures, t.pending[k], Cancelled)) else t
  }

  function Run(t: Table, trace: seq<Event>): Table {
    if trace == [] then t else Step(Run(t, trace[..|trace| - 1]), trace[|trace| - 1])
  }

  // ----- The ledger: the same thing without a table of futures -----

  /** Who is up, what became of every key ever sent, and which keys are still registered;
      `slot` numbers the keys in the order they were sent. */
  datatype Ledger = Ledger(
    up: map<NodeId, Socket>,
    fate: map<Key, Settlement>,
    waiting: set<Key>,
    slot: map<Key, nat>,
    sent: nat)

  const EMPTY := Ledger(map[], map[], {}, map[], 0)

  function Decide(l: Ledger, k: Key, state: Settlement): map<Key, Settlement> {
    if k in l.fate && l.fate[k].Pending? then l.fate[k := state] else l.fate
  }

  function StepLedger(l: Ledger, e: Event): Ledger {
    match e
    case Idle => l
    case Connect(n, s) => l.(up := l.up[n := s])
    case Disconnect(n) =>
      l.(up := l.up - {n},
         fate := map k | k in l.fate ::
           if k.node == n && k in l.waiting && l.fate[k].Pending? then Cancelled else l.fate[k],
         waiting := set k | k in l.waiting && k.node != n)
    case Send(k) =>
      if k.node in l.up
      then l.(fate := l.fate[k := Pending], waiting := l.waiting + {k}, slot := l.slot[k := l.sent], sent := l.sent + 1)
      else l
    case Resolve(k, a) =>
      if k in l.waiting then l.(fate := Decide(l, k, Resolved(a)), waiting := l.waiting - {k}) else l
    case Cancel(k) =>
      if k in l.waiting then l.(fate := Decide(l, k, Cancelled), waiting := l.waiting - {k}) else l
    case Expire(k) =>
      if k in l.waiting then l.(fate := Decide(l, k, Cancelled)) else l
  }

  function RunLedger(l: Ledger, trace: seq<Event>): Ledger {
    if trace == [] then l else StepLedger(RunLedger(l, trace[..|trace| - 1]), trace[|trace| - 1])
  }

  lemma OnlySendsAdd(l: Ledger, e: Event)
    ensures forall k :: k in StepLedger(l, e).fate && k !in l.fate ==> e == Send(k)
  {
  }

  /** What every run keeps: a registered key belongs to a connected node and nobody has
      resolved it; a key still pending is registered. */
  ghost predicate LedgerInv(l: Ledger) {
    && (forall k :: k in l.waiting ==> k.node in l.up && k in l.fate && !l.fate[k].Resolved?)
    && (forall k :: k in l.fate && l.fate[k].Pending? ==> k in l.waiting)
  }

  /** Request ids are fresh and node ids de-duplicated: no key is sent twice. */
  ghost predicate FreshSends(l: Ledger, trace: seq<Event>) {
    && (forall i :: 0 <= i < |trace| && trace[i].Send? ==> trace[i].key !in l.fate)
    && (forall i, j :: 0 <= i < j < |trace| && trace[i].Send? && trace[j].Send? ==> trace[i].key != trace[j].key)
  }

  /** The table t and the ledger l tell the same story: one future per key ever sent, and each
      registered key leads to its own future. */
  ghost predicate Tells(t: Table, l: Ledger) {
    && t.connections == l.up
    && t.pending.Keys == l.waiting
    && l.slot.Keys == l.fate.Keys
    && l.sent == |t.futures|
    && (forall k :: k in l.slot ==> l.slot[k] < |t.futures| && t.futures[l.slot[k]] == Future(k, l.fate[k]))
    && (forall f :: 0 <= f < |t.futures| ==> t.futures[f].key in l.slot && l.slot[t.futures[f].key] == f)
    && (forall k :: k in t.pending ==> k in l.slot && t.pending[k] == l.slot[k])
  }

  ghost predicate TableInv(t: Table, l: Ledger) {
    Tells(t, l) && LedgerInv(l)
  }

  // ----- Refinement: the table runs like the ledger -----

  lemma DropLeavesFate(t: Table, l: Ledger, n: NodeId, k: Key)
    requires TableInv(t, l) && k in l.slot
    ensures k in StepLedger(l, Disconnect(n)).fate && l.slot[k] < |Drop(t, n).futures|
    ensures Drop(t, n).futures[l.slot[k]] == Future(k, StepLedger(l, Disconnect(n)).fate[k])
  {
    assert Registered(t.pending, k, l.slot[k]) <==> k in l.waiting;
  }

  lemma DropLeavesPending(t: Table, l: Ledger, n: NodeId)
    requires TableInv(t, l)
    ensures var u, m := Drop(t, n), StepLedger(l, Disconnect(n));
            && u.connections == m.up && u.pending.Keys == m.waiting
            && m.slot == l.slot && m.sent == l.sent == |u.futures| && m.fate.Keys == l.fate.Keys
            && (forall f :: 0 <= f < |u.futures| ==> u.futures[f].key == t.futures[f].key)
            && (forall k :: k in u.pending ==> k in t.pending && u.pending[k] == t.pending[k])
  {
  }

  lemma DropTells(t: Table, l: Ledger, n: NodeId)
    requires TableInv(t, l)
    ensures Tells(Drop(t, n), StepLedger(l, Disconnect(n)))
  {
    DropLeavesPending(t, l, n);
    forall k | k in l.slot
      ensures l.slot[k] < |Drop(t, n).futures|
      ensures Drop(t, n).futures[l.slot[k]] == Future(k, StepLedger(l, Disconnect(n)).fate[k])
    {
      DropLeavesFate(t, l, n, k);
    }
  }

  lemma SendTells(t: Table, l: Ledger, k: Key)
    requires TableInv(t, l) && k !in l.fate && k.node in t.connections
    ensures Tells(Create(t, k), StepLedger(l, Send(k)))
  {
  }

  lemma PopTells(t: Table, l: Ledger, k: Key, state: Settlement)
    requires TableInv(t, l) && k in t.pending
    ensures Tells(Pop(t, k, state), l.(fate := Decide(l, k, state), waiting := l.waiting - {k}))
  {
  }

  lemma ExpireTells(t: Table, l: Ledger, k: Key)
    requires TableInv(t, l)
    ensures Tells(Step(t, Expire(k)), StepLedger(l, Expire(k)))
  {
  }

  lemma ResolveTells(t: Table, l: Ledger, k: Key, a: Ack)
    requires TableInv(t, l)
    ensures Tells(Step(t, Resolve(k, a)), StepLedger(l, Resolve(k, a)))
  {
    if k in t.pending { PopTells(t, l, k, Resolved(a)); }
  }

  lemma CancelTells(t: Table, l: Ledger, k: Key)
    requires TableInv(t, l)
    ensures Tells(Step(t, Cancel(k)), StepLedger(l, Cancel(k)))
  {
    if k in t.pending { PopTells(t, l, k, Cancelled); }
  }

  lemma ConnectTells(t: Table, l: Ledger, n: NodeId, s: Socket)
    requires TableInv(t, l)
    ensures Tells(Step(t, Connect(n, s)), StepLedger(l, Connect(n, s)))
  {
  }

  lemma StepTells(t: Table, l: Ledger, e: Event)
    requires TableInv(t, l)
    requires e.Send? ==> e.key !in l.fate
    ensures Tells(Step(t, e), StepLedger(l, e))
  {
    match e
    case Idle =>
    case Connect(n, s) => ConnectTells(t, l, n, s);
    case Disconnect(n) => DropTells(t, l, n);
    case Send(k) => if k.node in t.connections { SendTells(t, l, k); }
    case Resolve(k, a) => ResolveTells(t, l, k, a);
    case Cancel(k) => CancelTells(t, l, k);
    case Expire(k) => ExpireTells(t, l, k);
  }

  /** One atomic action: the futures and the ledger move together. */
  lemma StepRefines(t: Table, l: Ledger, e: Event)
    requires TableInv(t, l)
    requires e.Send? ==> e.key !in l.fate
    ensures TableInv(Step(t, e), StepLedger(l, e))
  {
    LedgerStepInv(l, e);
    StepTells(t, l, e);
  }

  lemma {:induction false} KeysOfRun(l: Ledger, trace: seq<Event>, k: Key)
    requires k !in l.fate
    requires forall i :: 0 <= i < |trace| && trace[i].Send? ==> trace[i].key != k
    ensures k !in RunLedger(l, trace).fate
  {
    if trace != [] {
      KeysOfRun(l, trace[..|trace| - 1], k);
    }
  }

  /** The pending-table invariant over all runs, and the refinement it buys: after any
      interleaving with fresh keys, the futures say what the ledger says. */
  lemma {:induction false} RunRefines(t: Table, l: Ledger, trace: seq<Event>)
    requires TableInv(t, l) && FreshSends(l, trace)
    ensures TableInv(Run(t, trace), RunLedger(l, trace))
  {
    if trace != [] {
      var before, e := trace[..|trace| - 1], trace[|trace| - 1];
      RunRefines(t, l, before);
      if e.Send? { KeysOfRun(l, before, e.key); }
      StepRefines(Run(t, before), RunLedger(l, before), e);
    }
  }

  /** The same invariant in the table's own terms, for every run from the empty server: every
      registered key's node is connected and leads to the future created under that key, which
      is not resolved; every pending future is registered; no two futures share a key, so no
      live future is ever overwritten. */
  lemma PendingTable(trace: seq<Event>)
    requires FreshSends(EMPTY, trace)
    ensures var t := Run(Table(map[], map[], []), trace);
            && (forall k :: k in t.pending ==>
                  && k.node in t.connections
                  && t.pending[k] < |t.futures|
                  && t.futures[t.pending[k]].key == k
                  && !t.futures[t.pending[k]].state.Resolved?)
            && (forall f :: 0 <= f < |t.futures| && t.futures[f].state.Pending? ==>
                  t.futures[f].key in t.pending && t.pending[t.futures[f].key] == f)
            && (forall f, g :: 0 <= f < g < |t.futures| ==> t.futures[f].key != t.futures[g].key)
  {
    RunRefines(Table(map[], map[], []), EMPTY, trace);
  }

  // ----- Settled futures stay settled -----

  lemma StepSettlesOnce(t: Table, e: Event, f: nat)
    requires f < |t.futures|
    ensures f < |Step(t, e).futures| && Step(t, e).futures[f].key == t.futures[f].key
    ensures !t.futures[f].state.Pending? ==> Step(t, e).futures[f] == t.futures[f]
  {
  }

  /** No event of any kind ever changes a future that is done: each is settled at most once. */
  lemma {:induction false} SettledForever(t: Table, trace: seq<Event>, f: nat)
    requires f < |t.futures|
    ensures f < |Run(t, trace).futures| && Run(t, trace).futures[f].key == t.futures[f].key
    ensures !t.futures[f].state.Pending? ==> Run(t, trace).futures[f] == t.futures[f]
  {
    if trace != [] {
      SettledForever(t, trace[..|trace| - 1], f);
      StepSettlesOnce(Run(t, trace[..|trace| - 1]), trace[|trace| - 1], f);
    }
  }

  // ----- The first decisive event decides -----

  predicate Decides(e: Event, k: Key) {
    || ((e.Resolve? || e.Cancel? || e.Expire?) && e.key == k)
    || (e.Disconnect? && e.node == k.node)
  }

  function Verdict(e: Event): Settlement {
    if e.Resolve? then Resolved(e.ack) else Cancelled
  }

  /** The first event in trace[from..to] that decides k. */
  function First(trace: seq<Event>, from: nat, to: nat, k: Key): (j: Option<nat>)
    requires from <= to <= |trace|
    ensures j.Some? ==> from <= j.value < to && Decides(trace[j.value], k)
    ensures j.Some? ==> forall i :: from <= i < j.value ==> !Decides(trace[i], k)
    ensures j.None? ==> forall i :: from <= i < to ==> !Decides(trace[i], k)
  {
    if from == to then None
    else
      var earlier := First(trace, from, to - 1, k);
      if earlier.Some? then earlier
      else if Decides(trace[to - 1], k) then Some(to - 1)
      else None
  }

  /** The fate of a key that was sent just before position `from`. */
  function FateBy(trace: seq<Event>, from: nat, to: nat, k: Key): Settlement
    requires from <= to <= |trace|
  {
    match First(trace, from, to, k)
    case None => Pending
    case Some(j) => Verdict(trace[j])
  }

  lemma LedgerStepInv(l: Ledger, e: Event)
    requires LedgerInv(l)
    requires e.Send? ==> e.key !in l.fate
    ensures LedgerInv(StepLedger(l, e))
  {
  }

  /** One step of the ledger moves a key's fate exactly as FateBy says. */
  lemma FateStep(l: Ledger, trace: seq<Event>, from: nat, to: nat, k: Key)
    requires from <= to < |trace|
    requires HasFate(l, k, FateBy(trace, from, to, k))
    requires trace[to] != Send(k)
    ensures k in StepLedger(l, trace[to]).fate
    ensures StepLedger(l, trace[to]).fate[k] == FateBy(trace, from, to + 1, k)
  {
  }

  ghost predicate HasFate(l: Ledger, k: Key, state: Settlement) {
    LedgerInv(l) && k in l.fate && l.fate[k] == state
  }

  lemma FateAtBirth(l: Ledger, trace: seq<Event>, i: nat)
    requires LedgerInv(l) && FreshSends(l, trace) && i < |trace| && trace[i].Send?
    requires trace[i].key.node in RunLedger(l, trace[..i]).up
    ensures HasFate(RunLedger(l, trace[..i + 1]), trace[i].key, Pending)
  {
    LedgerAt(l, trace, i);
  }

  lemma SentOnce(l: Ledger, trace: seq<Event>, i: nat, j: nat)
    requires FreshSends(l, trace) && i < j < |trace| && trace[i].Send?
    ensures trace[j] != Send(trace[i].key)
  {
  }

  lemma {:induction false} FateAt(l: Ledger, trace: seq<Event>, i: nat, n: nat)
    requires LedgerInv(l) && FreshSends(l, trace)
    requires i < n <= |trace| && trace[i].Send?
    requires trace[i].key.node in RunLedger(l, trace[..i]).up
    ensures HasFate(RunLedger(l, trace[..n]), trace[i].key, FateBy(trace, i + 1, n, trace[i].key))
    decreases n
  {
    if n == i + 1 {
      FateAtBirth(l, trace, i);
    } else {
      FateAt(l, trace, i, n - 1);
      FateNext(l, trace, i, n - 1);
    }
  }

  lemma FateNext(l: Ledger, trace: seq<Event>, i: nat, n: nat)
    requires LedgerInv(l) && FreshSends(l, trace) && i < n < |trace| && trace[i].Send?
    requires HasFate(RunLedger(l, trace[..n]), trace[i].key, FateBy(trace, i + 1, n, trace[i].key))
    ensures HasFate(RunLedger(l, trace[..n + 1]), trace[i].key, FateBy(trace, i + 1, n + 1, trace[i].key))
  {
    LedgerAt(l, trace, n);
    SentOnce(l, trace, i, n);
    FateStep(RunLedger(l, trace[..n]), trace, i + 1, n, trace[i].key);
  }

  lemma LedgerAt(l: Ledger, trace: seq<Event>, n: nat)
    requires LedgerInv(l) && FreshSends(l, trace) && n < |trace|
    ensures var m := RunLedger(l, trace[..n]);
            && LedgerInv(m) && (trace[n].Send? ==> trace[n].key !in m.fate)
            && RunLedger(l, trace[..n + 1]) == StepLedger(m, trace[n]) && LedgerInv(StepLedger(m, trace[n]))
  {
    assert trace[..n + 1][..n] == trace[..n];
    LedgerRunInv(l, trace[..n]);
    if trace[n].Send? { KeysOfRun(l, trace[..n], trace[n].key); }
    LedgerStepInv(RunLedger(l, trace[..n]), trace[n]);
  }

  lemma {:induction false} LedgerRunInv(l: Ledger, trace: seq<Event>)
    requires LedgerInv(l) && FreshSends(l, trace)
    ensures LedgerInv(RunLedger(l, trace))
  {
    if trace != [] {
      LedgerRunInv(l, trace[..|trace| - 1]);
      var e := trace[|trace| - 1];
      if e.Send? { KeysOfRun(l, trace[..|trace| - 1], e.key); }
      LedgerStepInv(RunLedger(l, trace[..|trace| - 1]), e);
    }
  }

  /** Over every interleaving: the future created for k at position i ends up exactly as the
      first decisive event after i left it -- a message of that node with that request id, a
      disconnect of that node, the deadline of that wait, or a withdrawal -- and is pending
      when there was none. All later events, whatever they are, make no difference. */
  lemma FirstDecisiveEventWins(t: Table, l: Ledger, trace: seq<Event>, i: nat)
    requires TableInv(t, l) && FreshSends(l, trace)
    requires i < |trace| && trace[i].Send?
    requires trace[i].key.node in Run(t, trace[..i]).connections
    ensures var f := |Run(t, trace[..i]).futures|;
            && f < |Run(t, trace).futures|
            && Run(t, trace).futures[f] == Future(trace[i].key, FateBy(trace, i + 1, |trace|, trace[i].key))
  {
    var k, f := trace[i].key, |Run(t, trace[..i]).futures|;
    RunRefines(t, l, trace[..i]);
    assert trace[..i + 1][..i] == trace[..i];
    var born := Run(t, trace[..i + 1]);
    assert born.futures[f] == Future(k, Pending);
    assert trace == trace[..i + 1] + trace[i + 1..];
    RunConcat(t, trace[..i + 1], trace[i + 1..]);
    SettledForever(born, trace[i + 1..], f);
    RunRefines(t, l, trace);
    assert trace[..|trace|] == trace;
    FateAt(l, trace, i, |trace|);
  }

  lemma {:induction false} RunConcat(t: Table, a: seq<Event>, b: seq<Event>)
    ensures Run(t, a + b) == Run(Run(t, a), b)
  {
    if b == [] {
      assert a + b == a;
    } else {
      assert (a + b)[..|a + b| - 1] == a + b[..|b| - 1];
      RunConcat(t, a, b[..|b| - 1]);
    }
  }

  // ----- Connectivity -----

  /** Whether n is connected after the first `to` events, given who was connected before. */
  predicate Up(before: set<NodeId>, trace: seq<Event>, to: nat, n: NodeId)
    requires to <= |trace|
  {
    if to == 0 then n in before
    else
      match trace[to - 1]
      case Connect(m, _) => m == n || Up(before, trace, to - 1, n)
      case Disconnect(m) => m != n && Up(before, trace, to - 1, n)
      case _ => Up(before, trace, to - 1, n)
  }

  lemma {:induction false} UpAfterRun(l: Ledger, trace: seq<Event>, to: nat, n: NodeId)
    requires to <= |trace|
    ensures n in RunLedger(l, trace[..to]).up <==> Up(l.up.Keys, trace, to, n)
  {
    if to > 0 {
      assert trace[..to][..to - 1] == trace[..to - 1];
      UpAfterRun(l, trace, to - 1, n);
    }
  }

  predicate Moves(e: Event, n: NodeId) {
    (e.Connect? || e.Disconnect?) && e.node == n
  }

  ghost predicate Unmoved(trace: seq<Event>, from: nat, n: NodeId) {
    forall j :: from <= j < |trace| ==> !Moves(trace[j], n)
  }

  predicate Holds(t: Table, n: NodeId, s: Socket) {
    n in t.connections && t.connections[n] == s
  }

  /** The event at i registered s for n, and is the last one that concerned n's connection. */
  ghost predicate Decisive(trace: seq<Event>, i: nat, n: NodeId, s: Socket) {
    i < |trace| && trace[i] == Connect(n, s) && Unmoved(trace, i + 1, n)
  }

  /** Over every run: s is the registered socket of n exactly if it was registered last, or was
      there to begin with, and the node has seen neither a connect nor a disconnect since. */
  lemma {:induction false} RegisteredIff(t: Table, trace: seq<Event>, n: NodeId, s: Socket)
    ensures Holds(Run(t, trace), n, s) <==>
              (exists i: nat :: Decisive(trace, i, n, s)) || (Holds(t, n, s) && Unmoved(trace, 0, n))
  {
    if trace != [] {
      var before, e := trace[..|trace| - 1], trace[|trace| - 1];
      RegisteredIff(t, before, n, s);
      if Moves(e, n) {
        if e == Connect(n, s) { assert Decisive(trace, |before|, n, s); }
      } else {
        forall i: nat ensures Decisive(trace, i, n, s) <==> Decisive(before, i, n, s) {
          QuietLast(before, e, i + 1, n);
          assert trace == before + [e];
        }
        QuietLast(before, e, 0, n);
        assert trace == before + [e];
      }
    }
  }

  lemma QuietLast(before: seq<Event>, e: Event, from: nat, n: NodeId)
    requires !Moves(e, n)
    ensures Unmoved(before + [e], from, n) <==> Unmoved(before, from, n)
  {
    if Unmoved(before + [e], from, n) {
      forall j | from <= j < |before| ensures !Moves(before[j], n) {
        assert before[j] == (before + [e])[j];
      }
    }
  }

  /** The table forgets which socket a disconnect came from. So the newest socket of n stays
      registered exactly if nobody disconnects n after it, be it on behalf of an older socket;
      and otherwise n is not connected at all. */
  lemma {:induction false} NewestSocketStaysIff(t: Table, trace: seq<Event>, i: nat, n: NodeId, s: Socket)
    requires i < |trace| && trace[i] == Connect(n, s)
    requires forall j :: i < j < |trace| ==> !(trace[j].Connect? && trace[j].node == n)
    ensures Holds(Run(t, trace), n, s) <==> forall j :: i < j < |trace| ==> trace[j] != Disconnect(n)
    ensures n in Run(t, trace).connections <==> Holds(Run(t, trace), n, s)
  {
    if n in Run(t, trace).connections {
      var r := Run(t, trace).connections[n];
      RegisteredIff(t, trace, n, r);
      assert Moves(trace[i], n);
      var k: nat :| Decisive(trace, k, n, r);
      assert k == i;
      forall j | i < j < |trace| ensures trace[j] != Disconnect(n) {
        assert !Moves(trace[j], n);
      }
    } else if forall j :: i < j < |trace| ==> trace[j] != Disconnect(n) {
      RegisteredIff(t, trace, n, s);
      assert Decisive(trace, i, n, s);
    }
  }

  // ----- The manager -----

  /** Those under `left` are still to be withdrawn. */
  function WithdrawBut(futures: seq<Future>, pending: map<Key, nat>, n: NodeId, left: set<Key>): seq<Future> {
    seq(|futures|, (f: nat) requires f < |futures| =>
      if futures[f].key.node == n && Registered(pending, futures[f].key, f)
         && futures[f].key !in left && futures[f].state.Pending?
      then futures[f].(state := Cancelled)
      else futures[f])
  }

  lemma WithdrawOne(futures: seq<Future>, pending: map<Key, nat>, n: NodeId, left: set<Key>, k: Key)
    requires k in left && k.node == n && k in pending && pending[k] < |futures| && futures[pending[k]].key == k
    ensures Settle(WithdrawBut(futures, pending, n, left), pending[k], Cancelled)
         == WithdrawBut(futures, pending, n, left - {k})
  {
    assert Registered(pending, k, pending[k]);
  }

  class ConnectionManager {
    var connections: map<NodeId, Socket>
    var pending: map<Key, nat>
    var futures: seq<Future>

    ghost var ledger: Ledger

    ghost function Contents(): Table
      reads this
    {
      Table(connections, pending, futures)
    }

    ghost predicate Valid()
      reads this
    {
      TableInv(Contents(), ledger)
    }

    constructor ()
      ensures Valid() && Contents() == Table(map[], map[], []) && ledger == EMPTY
    {
      connections, pending, futures, ledger := map[], map[], [], EMPTY;
    }

    /** Registers the socket, and returns the one it displaced so that it can be closed. */
    method Connect(node: NodeId, socket: Socket) returns (toClose: Option<Socket>)
      requires Valid()
      modifies this
      ensures Valid() && Contents() == Step(old(Contents()), Event.Connect(node, socket))
      ensures ledger == StepLedger(old(ledger), Event.Connect(node, socket))
      ensures toClose == if node in old(connections) && old(connections)[node] != socket
                         then Some(old(connections)[node]) else None
    {
      StepRefines(Contents(), ledger, Event.Connect(node, socket));
      ledger := StepLedger(ledger, Event.Connect(node, socket));
      toClose := if node in connections && connections[node] != socket then Some(connections[node]) else None;
      connections := connections[node := socket];
    }

    method SettleFuture(f: nat, state: Settlement)
      modifies `futures
      ensures futures == Settle(old(futures), f, state)
    {
      if f < |futures| && futures[f].state.Pending? {
        futures := futures[f := futures[f].(state := state)];
      }
    }

    method WithdrawPending(node: NodeId)
      requires forall k :: k in pending ==> pending[k] < |futures| && futures[pending[k]].key == k
      modifies `pending, `futures
      ensures pending == map k | k in old(pending) && k.node != node :: old(pending)[k]
      ensures futures == Withdraw(old(futures), old(pending), node)
    {
      ghost var was, had := futures, pending;
      var keys := set k | k in pending && k.node == node;
      while keys != {}
        invariant forall k :: k in keys ==> k in had && k.node == node
        invariant pending == map k | k in had && (k.node != node || k in keys) :: had[k]
        invariant futures == WithdrawBut(was, had, node, keys)
        decreases |keys|
      {
        var k :| k in keys;
        var f := pending[k];
        WithdrawOne(was, had, node, keys, k);
        pending := pending - {k};
        keys := keys - {k};
        SettleFuture(f, Cancelled);
      }
    }

    /** Forgets the node's socket, whichever it is, and withdraws everything waiting on the node. */
    method Disconnect(node: NodeId)
      requires Valid()
      modifies this
      ensures Valid() && Contents() == Step(old(Contents()), Event.Disconnect(node))
      ensures ledger == StepLedger(old(ledger), Event.Disconnect(node))
    {
      StepRefines(Contents(), ledger, Event.Disconnect(node));
      connections := connections - {node};
      WithdrawPending(node);
      ledger := StepLedger(ledger, Event.Disconnect(node));
    }

    predicate IsConnected(node: NodeId)
      reads this
    {
      node in connections
    }

    method CreateAckFuture(k: Key) returns (f: nat)
      requires Valid() && IsConnected(k.node) && k !in ledger.fate
      modifies this
      ensures Valid() && Contents() == Step(old(Contents()), Send(k))
      ensures ledger == StepLedger(old(ledger), Send(k))
      ensures f == |old(futures)| && f < |futures| && futures[f] == Future(k, Pending)
    {
      StepRefines(Contents(), ledger, Send(k));
      ledger := StepLedger(ledger, Send(k));
      f := |futures|;
      futures := futures + [Future(k, Pending)];
      pending := pending[k := f];
    }

    method PopAck(k: Key, state: Settlement)
      modifies `pending, `futures
      ensures Contents() == Pop(old(Contents()), k, state)
    {
      if k in pending {
        var f := pending[k];
        pending := pending - {k};
        SettleFuture(f, state);
      }
    }

    method ResolveAck(k: Key, ack: Ack)
      requires Valid()
      modifies this
      ensures Valid() && Contents() == Step(old(Contents()), Resolve(k, ack))
      ensures ledger == StepLedger(old(ledger), Resolve(k, ack))
    {
      StepRefines(Contents(), ledger, Resolve(k, ack));
      ledger := StepLedger(ledger, Resolve(k, ack));
      PopAck(k, Resolved(ack));
    }

    method CancelAck(k: Key)
      requires Valid()
      modifies this
      ensures Valid() && Contents() == Step(old(Contents()), Cancel(k))
      ensures ledger == StepLedger(old(ledger), Cancel(k))
    {
      StepRefines(Contents(), ledger, Cancel(k));
      ledger := StepLedger(ledger, Cancel(k));
      PopAck(k, Cancelled);
    }

    /** The deadline of a wait on a registered future: the wait cancels the future itself and
        leaves the table to whoever was waiting. */
    method ExpireFuture(f: nat)
      requires Valid() && f < |futures| && futures[f].state.Pending?
      modifies this
      ensures Valid() && Contents() == Step(old(Contents()), Expire(old(futures)[f].key))
      ensures ledger == StepLedger(old(ledger), Expire(old(futures)[f].key))
    {
      StepRefines(Contents(), ledger, Expire(futures[f].key));
      ledger := StepLedger(ledger, Expire(futures[f].key));
      assert pending[futures[f].key] == f;
      SettleFuture(f, Cancelled);
    }

    method ExpireKey(k: Key)
      requires Valid()
      modifies this
      ensures Valid() && Contents() == Step(old(Contents()), Expire(k))
      ensures ledger == StepLedger(old(ledger), Expire(k))
    {
      StepRefines(Contents(), ledger, Expire(k));
      ledger := StepLedger(ledger, Expire(k));
      if k in pending { SettleFuture(pending[k], Cancelled); }
    }

    /** One action of anything else running on the event loop. */
    method Interleave(e: Event)
      requires Valid() && (e.Send? ==> e.key !in ledger.fate)
      modifies this
      ensures Valid() && Contents() == Step(old(Contents()), e)
      ensures ledger == StepLedger(old(ledger), e)
    {
      match e {
        case Idle =>
        case Connect(n, s) => var _ := Connect(n, s);
        case Disconnect(n) => Disconnect(n);
        case Send(k) =>
          if IsConnected(k.node) {
            var _ := CreateAckFuture(k);
          }
        case Resolve(k, a) => ResolveAck(k, a);
        case Cancel(k) => CancelAck(k);
        case Expire(k) => ExpireKey(k);
      }
    }
  }
}
