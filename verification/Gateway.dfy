/**
 One node's WebSocket session: HELLO first, then its messages until something goes wrong, then
 the clean-up. Everything else the server does may happen between two of its messages.
 */
module Gateway {
  import opened Wrappers
  import opened Records
  import N = Nodes
  import NodeService
  import R = RegistryRuns
  import M = Manager

  // ----- What arrives -----

  datatype Body =
    | Hello(node: NodeId, token: string, displayName: string)
    | Said(node: NodeId, message: N.Message)
    | Failed(reporter: Option<NodeId>)

  /** `request` is empty when the envelope carries none; `payload` is the payload as it is handed
      on in an acknowledgement. */
  datatype Envelope = Envelope(body: Body, request: string, payload: map<string, string>)

  /** Garbled: refused by the parser or its version gate. Gone: the socket is closed, or a read
      or a write on it fails. */
  datatype Received = Parsed(envelope: Envelope) | Garbled | Gone

  function TypeOf(body: Body): string {
    match body
    case Hello(_, _, _) => "HELLO"
    case Failed(_) => "ERROR"
    case Said(_, m) =>
      match m
      case Heartbeat(_, _) => "HEARTBEAT"
      case StatusUpdate(_, _, _) => "STATUS_UPDATE"
      case SyncResult(_, _) => "SYNC_RESULT"
      case PlaybackStarted(_) => "PLAYBACK_STARTED"
      case PlaybackFinished => "PLAYBACK_FINISHED"
      case PlaybackStopped => "PLAYBACK_STOPPED"
      case PlaybackError(_) => "PLAYBACK_ERROR"
  }

  function Claimant(body: Body): Option<NodeId> {
    match body
    case Hello(node, _, _) => Some(node)
    case Said(node, _) => Some(node)
    case Failed(reporter) => reporter
  }

  // ----- The server as a session sees it -----

  datatype Server = Server(table: M.Table, registry: State)

  datatype Action = OnTable(event: M.Event) | OnRegistry(change: R.Event)

  /** An action of this session, or of anything else. */
  datatype Act = Mine(action: Action) | Theirs(action: Action)

  function Apply(s: Server, a: Action): Server {
    match a
    case OnTable(e) => s.(table := M.Step(s.table, e))
    case OnRegistry(e) => s.(registry := R.Step(s.registry, e))
  }

  function Run(s: Server, acts: seq<Act>): Server {
    if acts == [] then s else Apply(Run(s, acts[..|acts| - 1]), acts[|acts| - 1].action)
  }

  // ----- One message -----

  datatype End = HungUp | Unauthorized | InvalidMessage

  /** Why a message of an open session ends it, if it does. */
  function Refusal(known: bool, node: NodeId, e: Envelope): Option<End> {
    if Claimant(e.body).Some? && Claimant(e.body) != Some(node) then Some(InvalidMessage)
    else if e.body.Hello? || (e.body.Said? && !known) then Some(Unauthorized)
    else None
  }

  function AckOf(e: Envelope): M.Ack {
    M.Ack(TypeOf(e.body), e.payload)
  }

  /** The database first, and then the acknowledgement under the session's own node id. */
  function Effects(node: NodeId, e: Envelope, now: int): seq<Action> {
    (if e.body.Said? then [OnRegistry(R.Report(node, e.body.message, now))] else [])
    + (if e.request != "" then [OnTable(M.Resolve(M.Key(node, e.request), AckOf(e)))] else [])
  }

  // ----- A session -----

  datatype Stage = Waiting | Open(node: NodeId) | Over(authenticated: Option<NodeId>, end: End)

  datatype Turn = Other(action: Action) | Arrives(received: Received, now: int)

  datatype Session = Session(stage: Stage, acts: seq<Act>)

  predicate Accepted(r: State, body: Body) {
    body.Hello? && body.node in r.nodes && r.nodes[body.node].secret == body.token
  }

  function React(stage: Stage, r: State, socket: M.Socket, received: Received, now: int): (Stage, seq<Action>) {
    match stage
    case Over(_, _) => (stage, [])
    case Waiting => (
      match received
      case Gone => (Over(None, HungUp), [])
      case Garbled => (Over(None, InvalidMessage), [])
      case Parsed(e) =>
        if !e.body.Hello? then (Over(None, InvalidMessage), [])
        else if !Accepted(r, e.body) then (Over(None, Unauthorized), [])
        else (Open(e.body.node),
              [OnRegistry(R.Hello(e.body.node, e.body.token, e.body.displayName, now)),
               OnTable(M.Connect(e.body.node, socket))]))
    case Open(node) => (
      match received
      case Gone => (Over(Some(node), HungUp), [])
      case Garbled => (Over(Some(node), InvalidMessage), [])
      case Parsed(e) =>
        match Refusal(node in r.nodes, node, e)
        case Some(end) => (Over(Some(node), end), [])
        case None => (stage, Effects(node, e, now)))
  }

  function Own(actions: seq<Action>): seq<Act> {
    seq(|actions|, (i: nat) requires i < |actions| => Mine(actions[i]))
  }

  function Proceed(s: Server, at: Session, socket: M.Socket, t: Turn): Session {
    match t
    case Other(a) => at.(acts := at.acts + [Theirs(a)])
    case Arrives(received, now) =>
      var (stage, actions) := React(at.stage, Run(s, at.acts).registry, socket, received, now);
      Session(stage, at.acts + Own(actions))
  }

  /** The session up to the end of these turns. Once it is over nobody reads its socket. */
  function Follow(s: Server, socket: M.Socket, turns: seq<Turn>): Session {
    if turns == [] then Session(Waiting, [])
    else Proceed(s, Follow(s, socket, turns[..|turns| - 1]), socket, turns[|turns| - 1])
  }

  function Whose(stage: Stage): Option<NodeId> {
    match stage
    case Waiting => None
    case Open(node) => Some(node)
    case Over(authenticated, _) => authenticated
  }

  /** The clean-up, which goes by node id. */
  function Cleanup(stage: Stage): seq<Action> {
    match Whose(stage)
    case None => []
    case Some(node) => [OnTable(M.Disconnect(node)), OnRegistry(R.Disconnected(node))]
  }

  function Whole(s: Server, socket: M.Socket, turns: seq<Turn>): seq<Act> {
    var at := Follow(s, socket, turns);
    at.acts + Own(Cleanup(at.stage))
  }

  function EndOf(stage: Stage): End {
    if stage.Over? then stage.end else HungUp
  }

  // ----- The handlers -----

  /** Anything else the server does to the registry. */
  method Amend(db: Database, change: R.Event)
    modifies db
    ensures db.Contents() == R.Step(old(db.Contents()), change)
  {
    var s := R.Step(db.Contents(), change);
    db.nodes, db.enrollments := s.nodes, s.enrollments;
  }

  method HandleIncomingMessage(db: Database, manager: M.ConnectionManager, e: Envelope, node: NodeId, now: int)
    returns (refusal: Option<End>)
    requires manager.Valid()
    modifies db`nodes, manager
    ensures manager.Valid() && manager.ledger.fate.Keys == old(manager.ledger).fate.Keys
    ensures refusal == Refusal(node in old(db.nodes), node, e)
    ensures refusal.Some? ==> db.nodes == old(db.nodes) && manager.Contents() == old(manager.Contents())
    ensures refusal.None? ==>
      && db.nodes == (if e.body.Said? then old(db.nodes)[node := N.Reported(old(db.nodes)[node], e.body.message, now)]
                      else old(db.nodes))
      && manager.Contents() ==
         if e.request != "" then M.Step(old(manager.Contents()), M.Resolve(M.Key(node, e.request), AckOf(e)))
         else old(manager.Contents())
  {
    var claimant := Claimant(e.body);
    if claimant.Some? && claimant.value != node {
      return Some(InvalidMessage);
    }
    match e.body {
      case Said(id, message) =>
        var ok := NodeService.HandleMessage(db, id, message, now);
        if !ok {
          return Some(Unauthorized);
        }
      case Failed(_) =>
      case Hello(_, _, _) =>
        return Some(Unauthorized);
    }
    if e.request != "" {
      manager.ResolveAck(M.Key(node, e.request), AckOf(e));
    }
    refusal := None;
  }

  ghost function Contents(db: Database, manager: M.ConnectionManager): Server
    reads db, manager
  {
    Server(manager.Contents(), db.Contents())
  }

  predicate Sends(t: Turn, k: M.Key) {
    t.Other? && t.action == OnTable(M.Send(k))
  }

  /** Dispatches elsewhere use request ids of their own. */
  ghost predicate FreshTurns(sent: set<M.Key>, turns: seq<Turn>, from: nat) {
    && (forall i, k :: from <= i < |turns| && Sends(turns[i], k) ==> k !in sent)
    && (forall i, j, k :: from <= i < j < |turns| && Sends(turns[i], k) ==> !Sends(turns[j], k))
  }

  /** Something else has its turn. */
  method Yield(db: Database, manager: M.ConnectionManager, a: Action)
    requires manager.Valid()
    requires a.OnTable? && a.event.Send? ==> a.event.key !in manager.ledger.fate
    modifies db, manager
    ensures manager.Valid() && Contents(db, manager) == Apply(old(Contents(db, manager)), a)
    ensures forall k :: k in manager.ledger.fate && k !in old(manager.ledger).fate ==> a == OnTable(M.Send(k))
  {
    match a {
      case OnTable(e) =>
        M.OnlySendsAdd(manager.ledger, e);
        manager.Interleave(e);
      case OnRegistry(e) => Amend(db, e);
    }
  }

  /** HELLO: credentials, then registration of the socket. */
  method Greet(db: Database, manager: M.ConnectionManager, body: Body, socket: M.Socket, now: int)
    returns (node: Option<NodeId>)
    requires manager.Valid() && body.Hello?
    modifies db, manager
    ensures manager.Valid() && manager.ledger.fate == old(manager.ledger).fate
    ensures node == if Accepted(old(db.Contents()), body) then Some(body.node) else None
    ensures Contents(db, manager) == if node.None? then old(Contents(db, manager)) else
      Apply(Apply(old(Contents(db, manager)), OnRegistry(R.Hello(body.node, body.token, body.displayName, now))),
            OnTable(M.Connect(body.node, socket)))
  {
    var ok := NodeService.HandleHello(db, body.node, body.token, body.displayName, now);
    if !ok {
      return None;
    }
    var _ := manager.Connect(body.node, socket);
    node := Some(body.node);
  }

  /** What one arrival does to a session that is not over. */
  method Receive(db: Database, manager: M.ConnectionManager, stage: Stage, received: Received,
                 socket: M.Socket, now: int)
    returns (next: Stage)
    requires manager.Valid() && !stage.Over?
    modifies db, manager
    ensures manager.Valid() && manager.ledger.fate.Keys == old(manager.ledger).fate.Keys
    ensures next == React(stage, old(db.Contents()), socket, received, now).0
    ensures Contents(db, manager) ==
      Run(old(Contents(db, manager)), Own(React(stage, old(db.Contents()), socket, received, now).1))
  {
    var node := Whose(stage);
    if received.Gone? {
      return Over(node, HungUp);
    }
    if received.Garbled? {
      return Over(node, InvalidMessage);
    }
    var e := received.envelope;
    if node.None? {
      if !e.body.Hello? {
        return Over(None, InvalidMessage);
      }
      var greeted := Greet(db, manager, e.body, socket, now);
      if greeted.None? {
        return Over(None, Unauthorized);
      }
      RunTwo(old(Contents(db, manager)), OnRegistry(R.Hello(e.body.node, e.body.token, e.body.displayName, now)),
             OnTable(M.Connect(e.body.node, socket)));
      return Open(greeted.value);
    }
    var refusal := HandleIncomingMessage(db, manager, e, node.value, now);
    if refusal.Some? {
      return Over(node, refusal.value);
    }
    RunEffects(old(Contents(db, manager)), node.value, e, now);
    next := stage;
  }

  /** One turn, which takes the session from `at` to Proceed(before, at, ...). */
  method TakeTurn(db: Database, manager: M.ConnectionManager, stage: Stage, turn: Turn, socket: M.Socket,
                  ghost before: Server, ghost at: Session) returns (next: Stage)
    requires manager.Valid() && at.stage == stage && Contents(db, manager) == Run(before, at.acts)
    requires forall k :: Sends(turn, k) ==> k !in manager.ledger.fate
    modifies db, manager
    ensures manager.Valid() && next == Proceed(before, at, socket, turn).stage
    ensures Contents(db, manager) == Run(before, Proceed(before, at, socket, turn).acts)
    ensures forall k :: k in manager.ledger.fate && k !in old(manager.ledger).fate ==> Sends(turn, k)
  {
    next := stage;
    match turn {
      case Other(a) =>
        assert a.OnTable? && a.event.Send? ==> Sends(turn, a.event.key);
        RunNext(before, at.acts, Theirs(a));
        Yield(db, manager, a);
      case Arrives(received, now) =>
        RunOwn(before, at.acts, React(stage, Run(before, at.acts).registry, socket, received, now).1);
        if !stage.Over? {
          next := Receive(db, manager, stage, received, socket, now);
        }
    }
  }

  lemma FreshNext(sent: set<M.Key>, now: set<M.Key>, turns: seq<Turn>, i: nat)
    requires i < |turns| && FreshTurns(sent, turns, i)
    requires forall k :: k in now && k !in sent ==> Sends(turns[i], k)
    ensures FreshTurns(now, turns, i + 1)
  {
  }

  /** A session from its first message to the end of its clean-up. When the turns run out with
      the session still going, the socket is closed. */
  method NodeWebsocket(db: Database, manager: M.ConnectionManager, socket: M.Socket, turns: seq<Turn>)
    returns (end: End)
    requires manager.Valid() && FreshTurns(manager.ledger.fate.Keys, turns, 0)
    modifies db, manager
    ensures manager.Valid()
    ensures Contents(db, manager) == Run(old(Contents(db, manager)), Whole(old(Contents(db, manager)), socket, turns))
    ensures match Follow(old(Contents(db, manager)), socket, turns).stage
            case Over(_, cause) => end == cause
            case _ => end == HungUp
    ensures var who := Whose(Follow(old(Contents(db, manager)), socket, turns).stage);
            who.Some? ==> Cleared(Contents(db, manager), who.value)
  {
    ghost var before := Contents(db, manager);
    var stage := Waiting;
    for i := 0 to |turns|
      invariant manager.Valid() && FreshTurns(manager.ledger.fate.Keys, turns, i)
      invariant stage == Follow(before, socket, turns[..i]).stage
      invariant Contents(db, manager) == Run(before, Follow(before, socket, turns[..i]).acts)
    {
      FollowNext(before, socket, turns, i);
      ghost var fate := manager.ledger.fate.Keys;
      stage := TakeTurn(db, manager, stage, turns[i], socket, before, Follow(before, socket, turns[..i]));
      FreshNext(fate, manager.ledger.fate.Keys, turns, i);
    }
    assert turns[..|turns|] == turns;
    end := EndOf(stage);
    RunOwn(before, Follow(before, socket, turns).acts, Cleanup(stage));
    if Whose(stage).Some? { LeavesNothingBehind(before, socket, turns); }
    CleanUp(db, manager, stage);
  }

  method CleanUp(db: Database, manager: M.ConnectionManager, stage: Stage)
    requires manager.Valid()
    modifies db, manager
    ensures manager.Valid() && Contents(db, manager) == Run(old(Contents(db, manager)), Own(Cleanup(stage)))
  {
    var node := Whose(stage);
    if node.Some? {
      RunTwo(Contents(db, manager), OnTable(M.Disconnect(node.value)), OnRegistry(R.Disconnected(node.value)));
      manager.Disconnect(node.value);
      NodeService.MarkDisconnected(db, node.value);
    }
  }

  // ----- Runs -----

  lemma RunNext(s: Server, acts: seq<Act>, a: Act)
    ensures Run(s, acts + [a]) == Apply(Run(s, acts), a.action)
  {
    assert (acts + [a])[..|acts|] == acts;
  }

  lemma {:induction false} RunOn(s: Server, first: seq<Act>, more: seq<Act>)
    ensures Run(s, first + more) == Run(Run(s, first), more)
  {
    if more == [] {
      assert first + more == first;
    } else {
      assert (first + more)[..|first + more| - 1] == first + more[..|more| - 1];
      RunOn(s, first, more[..|more| - 1]);
    }
  }

  lemma RunOwn(s: Server, acts: seq<Act>, actions: seq<Action>)
    ensures Run(s, acts + Own(actions)) == Run(Run(s, acts), Own(actions))
    ensures actions == [] ==> acts + Own(actions) == acts
  {
    RunOn(s, acts, Own(actions));
  }

  lemma RunTwo(s: Server, a: Action, b: Action)
    ensures Run(s, Own([a, b])) == Apply(Apply(s, a), b)
  {
    assert Own([a, b]) == [Mine(a)] + [Mine(b)] && [] + [Mine(a)] == [Mine(a)];
    RunNext(s, [], Mine(a));
    RunNext(s, [Mine(a)], Mine(b));
  }

  lemma RunEffects(s: Server, node: NodeId, e: Envelope, now: int)
    ensures var t := if e.body.Said? then Apply(s, OnRegistry(R.Report(node, e.body.message, now))) else s;
            Run(s, Own(Effects(node, e, now))) ==
            if e.request != "" then Apply(t, OnTable(M.Resolve(M.Key(node, e.request), AckOf(e)))) else t
  {
    if e.body.Said? && e.request != "" {
      RunTwo(s, OnRegistry(R.Report(node, e.body.message, now)), OnTable(M.Resolve(M.Key(node, e.request), AckOf(e))));
      assert Effects(node, e, now) ==
        [OnRegistry(R.Report(node, e.body.message, now)), OnTable(M.Resolve(M.Key(node, e.request), AckOf(e)))];
    }
  }

  lemma FollowNext(s: Server, socket: M.Socket, turns: seq<Turn>, i: nat)
    requires i < |turns|
    ensures Follow(s, socket, turns[..i + 1]) == Proceed(s, Follow(s, socket, turns[..i]), socket, turns[i])
  {
    assert turns[..i + 1][..i] == turns[..i];
  }

  // ----- What a session may do -----

  /** An action in the name of one node: its HELLO, its reports, its connection, and
      acknowledgements under its own id. */
  predicate About(a: Action, node: NodeId) {
    match a
    case OnTable(Connect(n, _)) => n == node
    case OnTable(Disconnect(n)) => n == node
    case OnTable(Resolve(k, _)) => k.node == node
    case OnTable(_) => false
    case OnRegistry(Hello(n, _, _, _)) => n == node
    case OnRegistry(Report(n, _, _)) => n == node
    case OnRegistry(Disconnected(n)) => n == node
    case OnRegistry(_) => false
  }

  /** The session's own actions are in the name of `who`, if anybody. */
  ghost predicate InTheNameOf(acts: seq<Act>, who: Option<NodeId>) {
    forall i :: 0 <= i < |acts| && acts[i].Mine? ==> who.Some? && About(acts[i].action, who.value)
  }

  /** Act i is a HELLO of `who`, with credentials that were right just then, and the session had done
      nothing before it. */
  ghost predicate VouchedAt(s: Server, acts: seq<Act>, i: nat, who: NodeId, token: string, name: string, now: int) {
    && i < |acts| && acts[i] == Mine(OnRegistry(R.Hello(who, token, name, now)))
    && Accepted(Run(s, acts[..i]).registry, Hello(who, token, name))
    && forall j :: 0 <= j < i ==> acts[j].Theirs?
  }

  ghost predicate Vouched(s: Server, acts: seq<Act>, who: NodeId) {
    exists i: nat, token, name, now :: VouchedAt(s, acts, i, who, token, name, now)
  }

  lemma VouchedStays(s: Server, acts: seq<Act>, more: seq<Act>, who: NodeId)
    requires Vouched(s, acts, who)
    ensures Vouched(s, acts + more, who)
  {
    var i: nat, token, name, now :| VouchedAt(s, acts, i, who, token, name, now);
    assert (acts + more)[..i] == acts[..i] && (acts + more)[i] == acts[i];
    assert VouchedAt(s, acts + more, i, who, token, name, now);
  }

  lemma VouchedNow(s: Server, acts: seq<Act>, body: Body, socket: M.Socket, now: int)
    requires body.Hello? && Accepted(Run(s, acts).registry, body) && InTheNameOf(acts, None)
    ensures Vouched(s, acts + Own([OnRegistry(R.Hello(body.node, body.token, body.displayName, now)),
                                   OnTable(M.Connect(body.node, socket))]), body.node)
  {
    var own := Own([OnRegistry(R.Hello(body.node, body.token, body.displayName, now)),
                    OnTable(M.Connect(body.node, socket))]);
    assert (acts + own)[|acts|] == Mine(OnRegistry(R.Hello(body.node, body.token, body.displayName, now)));
    assert (acts + own)[..|acts|] == acts;
    assert VouchedAt(s, acts + own, |acts|, body.node, body.token, body.displayName, now);
  }

  /** Whatever a client sends, and whatever happens meanwhile: the session acts for nobody until
      a HELLO with the right credentials, and from then on for that node alone. */
  lemma {:induction false} SpeaksOnlyForItself(s: Server, socket: M.Socket, turns: seq<Turn>)
    ensures var at := Follow(s, socket, turns);
            && InTheNameOf(Whole(s, socket, turns), Whose(at.stage))
            && (Whose(at.stage).Some? ==> Vouched(s, Whole(s, socket, turns), Whose(at.stage).value))
  {
    var at := Follow(s, socket, turns);
    FollowsOneNode(s, socket, turns);
    if Whose(at.stage).Some? {
      VouchedStays(s, at.acts, Own(Cleanup(at.stage)), Whose(at.stage).value);
    }
  }

  /** One reaction is in the name of the node that the session then has, which it keeps. */
  lemma ReactsFor(stage: Stage, r: State, socket: M.Socket, received: Received, now: int)
    ensures var (next, actions) := React(stage, r, socket, received, now);
            && InTheNameOf(Own(actions), Whose(next))
            && (Whose(stage).Some? ==> Whose(next) == Whose(stage))
            && (Whose(stage).None? && Whose(next).Some? ==>
                  received.Parsed? && Accepted(r, received.envelope.body)
                  && Whose(next).value == received.envelope.body.node)
  {
  }

  lemma JoinNames(acts: seq<Act>, more: seq<Act>, before: Option<NodeId>, who: Option<NodeId>)
    requires InTheNameOf(acts, before) && InTheNameOf(more, who) && (before.Some? ==> who == before)
    ensures InTheNameOf(acts + more, who)
  {
  }

  lemma {:induction false} FollowsOneNode(s: Server, socket: M.Socket, turns: seq<Turn>)
    ensures var at := Follow(s, socket, turns);
            && InTheNameOf(at.acts, Whose(at.stage))
            && (Whose(at.stage).Some? ==> Vouched(s, at.acts, Whose(at.stage).value))
  {
    if turns != [] {
      FollowsOneNode(s, socket, turns[..|turns| - 1]);
      ProceedsForOneNode(s, Follow(s, socket, turns[..|turns| - 1]), socket, turns[|turns| - 1]);
    }
  }

  lemma ProceedsForOneNode(s: Server, at: Session, socket: M.Socket, t: Turn)
    requires InTheNameOf(at.acts, Whose(at.stage))
    requires Whose(at.stage).Some? ==> Vouched(s, at.acts, Whose(at.stage).value)
    ensures var next := Proceed(s, at, socket, t);
            && InTheNameOf(next.acts, Whose(next.stage))
            && (Whose(next.stage).Some? ==> Vouched(s, next.acts, Whose(next.stage).value))
  {
    match t
    case Other(a) =>
      if Whose(at.stage).Some? { VouchedStays(s, at.acts, [Theirs(a)], Whose(at.stage).value); }
    case Arrives(received, now) =>
      var r := Run(s, at.acts).registry;
      var (next, actions) := React(at.stage, r, socket, received, now);
      ReactsFor(at.stage, r, socket, received, now);
      JoinNames(at.acts, Own(actions), Whose(at.stage), Whose(next));
      if Whose(at.stage).Some? {
        VouchedStays(s, at.acts, Own(actions), Whose(at.stage).value);
      } else if Whose(next).Some? {
        VouchedNow(s, at.acts, received.envelope.body, socket, now);
      }
  }

  // ----- What its acknowledgements say -----

  ghost predicate HasArrived(turns: seq<Turn>, e: Envelope) {
    exists t :: t in turns && t.Arrives? && t.received == Parsed(e)
  }

  /** A node's own message with a request id: what it says, under that id, in the name of the node. */
  predicate Acknowledges(e: Envelope, key: M.Key, ack: M.Ack) {
    && e.request != "" && e.request == key.request && ack == AckOf(e)
    && match e.body
       case Hello(_, _, _) => false
       case Said(node, _) => node == key.node
       case Failed(reporter) => reporter == None || reporter == Some(key.node)
  }

  lemma EffectAcknowledges(node: NodeId, e: Envelope, now: int, j: nat, key: M.Key, ack: M.Ack)
    requires j < |Effects(node, e, now)| && Effects(node, e, now)[j] == OnTable(M.Resolve(key, ack))
    requires Refusal(true, node, e).None?
    ensures Acknowledges(e, key, ack)
  {
  }

  /** Every acknowledgement that a session passes on is a message that it has received. */
  lemma {:induction false} AcknowledgementArrived(s: Server, socket: M.Socket, turns: seq<Turn>, i: nat,
                                                  key: M.Key, ack: M.Ack) returns (e: Envelope)
    requires i < |Follow(s, socket, turns).acts|
    requires Follow(s, socket, turns).acts[i] == Mine(OnTable(M.Resolve(key, ack)))
    ensures HasArrived(turns, e) && Acknowledges(e, key, ack)
  {
    var before, t := turns[..|turns| - 1], turns[|turns| - 1];
    var at := Follow(s, socket, before);
    assert t in turns && forall u :: u in before ==> u in turns;
    if i < |at.acts| {
      e := AcknowledgementArrived(s, socket, before, i, key, ack);
    } else {
      var j, r := i - |at.acts|, Run(s, at.acts).registry;
      assert Own(React(at.stage, r, socket, t.received, t.now).1)[j] == Mine(OnTable(M.Resolve(key, ack)));
      assert at.stage.Open?;
      e := t.received.envelope;
      EffectAcknowledges(at.stage.node, e, t.now, j, key, ack);
    }
  }

  // ----- Whether its socket stays registered -----

  predicate Touches(a: Action, node: NodeId) {
    a.OnTable? && M.Moves(a.event, node)
  }

  /** Act h registered the session's socket, and is its only act that concerns the connection. */
  ghost predicate GreetedAt(acts: seq<Act>, h: nat, node: NodeId, socket: M.Socket) {
    && h < |acts| && acts[h] == Mine(OnTable(M.Connect(node, socket)))
    && forall j :: 0 <= j < |acts| && j != h && acts[j].Mine? ==> !Touches(acts[j].action, node)
  }

  lemma GreetedStays(acts: seq<Act>, more: seq<Act>, h: nat, node: NodeId, socket: M.Socket)
    requires GreetedAt(acts, h, node, socket)
    requires forall j :: 0 <= j < |more| && more[j].Mine? ==> !Touches(more[j].action, node)
    ensures GreetedAt(acts + more, h, node, socket)
  {
  }

  lemma GreetedNow(acts: seq<Act>, e: Body, socket: M.Socket, now: int)
    requires InTheNameOf(acts, None) && e.Hello?
    ensures var own := Own([OnRegistry(R.Hello(e.node, e.token, e.displayName, now)),
                            OnTable(M.Connect(e.node, socket))]);
            GreetedAt(acts + own, |acts| + 1, e.node, socket)
  {
  }

  /** An open session does nothing more to the connection. */
  lemma EffectsDoNotTouch(node: NodeId, e: Envelope, now: int)
    ensures forall j :: 0 <= j < |Own(Effects(node, e, now))| ==> !Touches(Own(Effects(node, e, now))[j].action, node)
  {
  }

  lemma {:induction false} GreetsOnce(s: Server, socket: M.Socket, turns: seq<Turn>) returns (h: nat)
    requires Whose(Follow(s, socket, turns).stage).Some?
    ensures var at := Follow(s, socket, turns); GreetedAt(at.acts, h, Whose(at.stage).value, socket)
  {
    var before, t := turns[..|turns| - 1], turns[|turns| - 1];
    var at := Follow(s, socket, before);
    if Whose(at.stage).Some? {
      h := GreetsOnce(s, socket, before);
      if t.Other? {
        GreetedStays(at.acts, [Theirs(t.action)], h, Whose(at.stage).value, socket);
      } else {
        var (next, actions) := React(at.stage, Run(s, at.acts).registry, socket, t.received, t.now);
        if t.received.Parsed? && at.stage.Open? { EffectsDoNotTouch(at.stage.node, t.received.envelope, t.now); }
        GreetedStays(at.acts, Own(actions), h, Whose(at.stage).value, socket);
      }
    } else {
      FollowsOneNode(s, socket, before);
      GreetedNow(at.acts, t.received.envelope.body, socket, t.now);
      h := |at.acts| + 1;
    }
  }

  lemma {:induction false} HoldsUntilTouched(s: Server, acts: seq<Act>, h: nat, node: NodeId, socket: M.Socket)
    requires h < |acts| && acts[h].action == OnTable(M.Connect(node, socket))
    requires forall j :: h < j < |acts| ==> acts[j].action != OnTable(M.Connect(node, socket))
    ensures M.Holds(Run(s, acts).table, node, socket) <==> forall j :: h < j < |acts| ==> !Touches(acts[j].action, node)
  {
    var before, a := acts[..|acts| - 1], acts[|acts| - 1].action;
    if h < |before| {
      assert before[h] == acts[h] && forall j :: h < j < |before| ==> before[j] == acts[j];
      HoldsUntilTouched(s, before, h, node, socket);
      TouchDecides(Run(s, before), a, node, socket);
    }
  }

  lemma TouchDecides(s: Server, a: Action, node: NodeId, socket: M.Socket)
    requires a != OnTable(M.Connect(node, socket))
    ensures M.Holds(Apply(s, a).table, node, socket) <==> M.Holds(s.table, node, socket) && !Touches(a, node)
  {
  }

  /** The clean-up of a session goes by node id, and takes down whatever is registered. Just before
      it, that is still the session's own socket exactly if, since its HELLO, no other session has
      registered a socket for the node or cleaned up after it. */
  lemma OwnSocketStaysIff(s: Server, socket: M.Socket, turns: seq<Turn>) returns (h: nat)
    requires Whose(Follow(s, socket, turns).stage).Some?
    requires forall t :: t in turns && t.Other? && t.action.OnTable? && t.action.event.Connect? ==>
               t.action.event.socket != socket
    ensures var at := Follow(s, socket, turns); var node := Whose(at.stage).value;
            && GreetedAt(at.acts, h, node, socket)
            && (M.Holds(Run(s, at.acts).table, node, socket) <==>
                  forall j :: h < j < |at.acts| && at.acts[j].Theirs? ==> !Touches(at.acts[j].action, node))
  {
    h := GreetsOnce(s, socket, turns);
    var at := Follow(s, socket, turns);
    var node := Whose(at.stage).value;
    OthersUseOtherSockets(s, socket, turns, node);
    HoldsUntilTouched(s, at.acts, h, node, socket);
  }

  ghost predicate NotTheirs(acts: seq<Act>, a: Action) {
    forall j :: 0 <= j < |acts| && acts[j].Theirs? ==> acts[j].action != a
  }

  lemma NotTheirsJoin(acts: seq<Act>, more: seq<Act>, a: Action)
    requires NotTheirs(acts, a) && NotTheirs(more, a)
    ensures NotTheirs(acts + more, a)
  {
  }

  lemma {:induction false} OthersUseOtherSockets(s: Server, socket: M.Socket, turns: seq<Turn>, node: NodeId)
    requires forall t :: t in turns && t.Other? && t.action.OnTable? && t.action.event.Connect? ==>
               t.action.event.socket != socket
    ensures NotTheirs(Follow(s, socket, turns).acts, OnTable(M.Connect(node, socket)))
  {
    if turns != [] {
      var before, t := turns[..|turns| - 1], turns[|turns| - 1];
      assert forall u :: u in before ==> u in turns;
      assert t in turns;
      OthersUseOtherSockets(s, socket, before, node);
      var at := Follow(s, socket, before);
      match t
      case Other(a) => NotTheirsJoin(at.acts, [Theirs(a)], OnTable(M.Connect(node, socket)));
      case Arrives(received, now) =>
        NotTheirsJoin(at.acts, Own(React(at.stage, Run(s, at.acts).registry, socket, received, now).1),
                      OnTable(M.Connect(node, socket)));
    }
  }

  // ----- How a session ends -----

  /** Wherever it stood, when the session of an authenticated node is over the node has no
      connection, no command waits for it, and it is offline, idle and plays nothing --
      also if a newer session of the same node had taken its place. */
  lemma LeavesNothingBehind(s: Server, socket: M.Socket, turns: seq<Turn>)
    requires Whose(Follow(s, socket, turns).stage).Some?
    ensures Cleared(Run(s, Whole(s, socket, turns)), Whose(Follow(s, socket, turns).stage).value)
  {
    var at := Follow(s, socket, turns);
    var node := Whose(at.stage).value;
    RunOwn(s, at.acts, Cleanup(at.stage));
    RunTwo(Run(s, at.acts), OnTable(M.Disconnect(node)), OnRegistry(R.Disconnected(node)));
    CleanupClears(Run(s, at.acts), node);
  }

  /** Nothing of the node is connected, waited for, or still counted as playing. */
  ghost predicate Cleared(t: Server, node: NodeId) {
    && node !in t.table.connections
    && (forall k :: k in t.table.pending ==> k.node != node)
    && (node in t.registry.nodes ==>
          var n := t.registry.nodes[node]; n.connection.Offline? && n.operational == "idle" && n.spot.None?)
  }

  lemma CleanupClears(s: Server, node: NodeId)
    ensures Cleared(Apply(Apply(s, OnTable(M.Disconnect(node))), OnRegistry(R.Disconnected(node))), node)
  {
  }

  /** Nodes are never deleted, so an authenticated node is known for as long as its session lasts. */
  lemma NodesRemain(r: State, change: R.Event, node: NodeId)
    requires node in r.nodes
    ensures node in R.Step(r, change).nodes
  {
  }

  lemma {:induction false} NodesRemainThroughout(s: Server, acts: seq<Act>, node: NodeId)
    requires node in s.registry.nodes
    ensures node in Run(s, acts).registry.nodes
  {
    if acts != [] {
      var before := acts[..|acts| - 1];
      NodesRemainThroughout(s, before, node);
      var a := acts[|acts| - 1].action;
      if a.OnRegistry? { NodesRemain(Run(s, before).registry, a.change, node); }
    }
  }

  lemma {:induction false} OpenIsKnown(s: Server, socket: M.Socket, turns: seq<Turn>)
    requires Follow(s, socket, turns).stage.Open?
    ensures var at := Follow(s, socket, turns); at.stage.node in Run(s, at.acts).registry.nodes
  {
    var at := Follow(s, socket, turns);
    FollowsOneNode(s, socket, turns);
    var i: nat, token, name, now :| VouchedAt(s, at.acts, i, at.stage.node, token, name, now);
    assert at.acts == at.acts[..i] + at.acts[i..];
    RunOn(s, at.acts[..i], at.acts[i..]);
    NodesRemainThroughout(Run(s, at.acts[..i]), at.acts[i..], at.stage.node);
  }

  /** A message that an open session of the node serves: its own, or an error report that does not
      name another node. */
  predicate Servable(node: NodeId, body: Body) {
    match body
    case Hello(_, _, _) => false
    case Said(id, _) => id == node
    case Failed(reporter) => reporter == None || reporter == Some(node)
  }

  /** What serving a message does: the node's report goes to the registry first, and then, if the
      message has a request id, it is handed on under that id. */
  predicate Serves(acts: seq<Act>, node: NodeId, e: Envelope, now: int) {
    var reports := if e.body.Said? then 1 else 0;
    && |acts| == reports + (if e.request != "" then 1 else 0)
    && (e.body.Said? ==> acts[0] == Mine(OnRegistry(R.Report(node, e.body.message, now))))
    && (e.request != "" ==>
          acts[reports] == Mine(OnTable(M.Resolve(M.Key(node, e.request), M.Ack(TypeOf(e.body), e.payload)))))
  }

  lemma EffectsServe(node: NodeId, e: Envelope, now: int)
    ensures Serves(Own(Effects(node, e, now)), node, e, now)
  {
  }

  /** The types under which messages are handed on. */
  lemma TypesAreTold(body: Body)
    ensures body.Hello? <==> TypeOf(body) == "HELLO"
    ensures body.Failed? <==> TypeOf(body) == "ERROR"
    ensures body.Said? && body.message.Heartbeat? <==> TypeOf(body) == "HEARTBEAT"
    ensures body.Said? && body.message.StatusUpdate? <==> TypeOf(body) == "STATUS_UPDATE"
    ensures body.Said? && body.message.SyncResult? <==> TypeOf(body) == "SYNC_RESULT"
    ensures body.Said? && body.message.PlaybackStarted? <==> TypeOf(body) == "PLAYBACK_STARTED"
    ensures body.Said? && body.message.PlaybackFinished? <==> TypeOf(body) == "PLAYBACK_FINISHED"
    ensures body.Said? && body.message.PlaybackStopped? <==> TypeOf(body) == "PLAYBACK_STOPPED"
    ensures body.Said? && body.message.PlaybackError? <==> TypeOf(body) == "PLAYBACK_ERROR"
  {
  }

  /** A session opens exactly on a HELLO, as its first message, with the right token of a known node;
      it then greets the node and registers its socket. Anything else ends it with nothing done:
      wrong credentials as unauthorized, any other message as invalid. */
  lemma OpensExactlyOn(s: Server, socket: M.Socket, turns: seq<Turn>, received: Received, now: int)
    requires Follow(s, socket, turns).stage.Waiting?
    ensures var at := Follow(s, socket, turns);
            var next := Follow(s, socket, turns + [Arrives(received, now)]);
            var nodes := Run(s, at.acts).registry.nodes;
            var hello := received.Parsed? && received.envelope.body.Hello?;
            && (next.stage.Open? <==> hello && var b := received.envelope.body;
                                      b.node in nodes && nodes[b.node].secret == b.token)
            && (next.stage.Open? ==>
                  var b := received.envelope.body;
                  && next.stage.node == b.node
                  && next.acts == at.acts + [Mine(OnRegistry(R.Hello(b.node, b.token, b.displayName, now))),
                                             Mine(OnTable(M.Connect(b.node, socket)))])
            && (!next.stage.Open? ==>
                  && next.acts == at.acts
                  && next.stage == Over(None, if received.Gone? then HungUp else if hello then Unauthorized
                                              else InvalidMessage))
  {
    assert (turns + [Arrives(received, now)])[..|turns|] == turns;
    assert Own([]) == [];
    if received.Parsed? && received.envelope.body.Hello? {
      var b := received.envelope.body;
      assert Own([OnRegistry(R.Hello(b.node, b.token, b.displayName, now)), OnTable(M.Connect(b.node, socket))]) ==
        [Mine(OnRegistry(R.Hello(b.node, b.token, b.displayName, now))), Mine(OnTable(M.Connect(b.node, socket)))];
    }
  }

  /** An open session ends exactly on a lost socket, a refused message, a message in another node's
      name, or another HELLO, and only that last one, if in its own name, as unauthorized; every
      other message is served and the session stays open. */
  lemma EndsExactlyOn(s: Server, socket: M.Socket, turns: seq<Turn>, received: Received, now: int)
    requires Follow(s, socket, turns).stage.Open?
    ensures var at := Follow(s, socket, turns); var node := at.stage.node;
            var next := Follow(s, socket, turns + [Arrives(received, now)]);
            && (next.stage == at.stage <==> received.Parsed? && Servable(node, received.envelope.body))
            && (next.stage == at.stage ==>
                  at.acts <= next.acts && Serves(next.acts[|at.acts|..], node, received.envelope, now))
            && (next.stage != at.stage ==>
                  && next.acts == at.acts
                  && next.stage == Over(Some(node),
                       if received.Gone? then HungUp
                       else if received.Parsed? && received.envelope.body.Hello? && received.envelope.body.node == node
                       then Unauthorized else InvalidMessage))
  {
    OpenIsKnown(s, socket, turns);
    assert (turns + [Arrives(received, now)])[..|turns|] == turns;
    assert Own([]) == [];
    var at := Follow(s, socket, turns);
    if received.Parsed? && Servable(at.stage.node, received.envelope.body) {
      EffectsServe(at.stage.node, received.envelope, now);
      var own := Own(Effects(at.stage.node, received.envelope, now));
      assert (at.acts + own)[|at.acts|..] == own;
    }
  }
}
