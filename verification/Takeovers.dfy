/** A run in which the end of an older session takes down the newer session of the same node. */
module Takeovers {
  import opened Wrappers
  import opened Records
  import opened Gateway
  import opened Attribution
  import Nodes
  import RegistryRuns
  import M = Manager

  function Others(actions: seq<Action>): seq<Turn> {
    seq(|actions|, (i: nat) requires i < |actions| => Other(actions[i]))
  }

  function Them(actions: seq<Action>): seq<Act> {
    seq(|actions|, (i: nat) requires i < |actions| => Theirs(actions[i]))
  }

  /** While others act, a session only looks on. */
  lemma {:induction false} LooksOn(s: Server, k: M.Socket, turns: seq<Turn>, actions: seq<Action>)
    ensures var at := Follow(s, k, turns);
            Follow(s, k, turns + Others(actions)) == Session(at.stage, at.acts + Them(actions))
  {
    var all := turns + Others(actions);
    if actions == [] {
      assert all == turns && Follow(s, k, turns).acts + Them(actions) == Follow(s, k, turns).acts;
    } else {
      var before := actions[..|actions| - 1];
      LooksOn(s, k, turns, before);
      assert all[..|all| - 1] == turns + Others(before);
      assert Them(actions) == Them(before) + [Theirs(actions[|actions| - 1])];
    }
  }

  function Joining(node: NodeId, token: string, k: M.Socket, now: int): seq<Action> {
    [OnRegistry(RegistryRuns.Hello(node, token, "", now)), OnTable(M.Connect(node, k))]
  }

  /** A session that begins after `before`, and stays open while `after` happens. */
  lemma StaysOpen(s: Server, k: M.Socket, before: seq<Action>, after: seq<Action>,
                  node: NodeId, token: string, now: int)
    returns (turns: seq<Turn>)
    requires Accepted(Gateway.Run(s, Them(before)).registry, Hello(node, token, ""))
    ensures Follow(s, k, turns) == Session(Open(node), Them(before) + Own(Joining(node, token, k, now)) + Them(after))
  {
    var hello := Arrives(Parsed(Envelope(Hello(node, token, ""), "", map[])), now);
    LooksOn(s, k, [], before);
    assert [] + Others(before) == Others(before) && [] + Them(before) == Them(before);
    var joined := Others(before) + [hello];
    assert joined[..|joined| - 1] == Others(before);
    LooksOn(s, k, joined, after);
    turns := joined + Others(after);
  }

  function Together(actor: Actor, actions: seq<Action>): seq<Deed> {
    seq(|actions|, (i: nat) requires i < |actions| => Deed(actor, actions[i]))
  }

  function Leaving(node: NodeId): seq<Action> {
    [OnTable(M.Disconnect(node)), OnRegistry(RegistryRuns.Disconnected(node))]
  }

  const EMPTY := Server(M.Table(map[], map[], []), State(map[], []))

  function Setup(node: NodeId, token: string): Action {
    OnRegistry(RegistryRuns.Event.Provision(Nodes.Provisioning(node, "", true, true), token))
  }

  /** A node is provisioned, opens a session, opens another one on a second socket, and then the
      first session cleans up. */
  function Takeover(node: NodeId, token: string, older: M.Socket, newer: M.Socket, now: int): seq<Deed> {
    Together(Rest, [Setup(node, token)])
    + Together(Peer(older), Joining(node, token, older, now))
    + Together(Peer(newer), Joining(node, token, newer, now))
    + Together(Peer(older), Leaving(node))
  }

  lemma OlderIsSession(node: NodeId, token: string, older: M.Socket, newer: M.Socket, now: int)
    requires older != newer
    ensures IsSession(EMPTY, Takeover(node, token, older, newer, now), older)
  {
    var run := Takeover(node, token, older, newer, now);
    var turns := StaysOpen(EMPTY, older, [Setup(node, token)], Joining(node, token, newer, now), node, token, now);
    assert View(run, older) == Whole(EMPTY, older, turns) + [];
    assert Carries(EMPTY, run, older, turns, []);
  }

  lemma ProvisionedBefore(node: NodeId, token: string, older: M.Socket, now: int)
    ensures Accepted(Gateway.Run(EMPTY, Them([Setup(node, token)] + Joining(node, token, older, now))).registry,
                     Hello(node, token, ""))
  {
    var setup, joining := Setup(node, token), Joining(node, token, older, now);
    var first := [] + [Theirs(setup)];
    RunNext(EMPTY, [], Theirs(setup));
    RunNext(EMPTY, first, Theirs(joining[0]));
    RunNext(EMPTY, first + [Theirs(joining[0])], Theirs(joining[1]));
    assert Them([setup] + joining) == first + [Theirs(joining[0])] + [Theirs(joining[1])];
  }

  lemma NewerIsOpen(node: NodeId, token: string, older: M.Socket, newer: M.Socket, now: int) returns (turns: seq<Turn>)
    requires older != newer
    ensures Follow(EMPTY, newer, turns) == Session(Open(node), View(Takeover(node, token, older, newer, now), newer))
  {
    var before := [Setup(node, token)] + Joining(node, token, older, now);
    ProvisionedBefore(node, token, older, now);
    turns := StaysOpen(EMPTY, newer, before, Leaving(node), node, token, now);
    assert Them(before) + Own(Joining(node, token, newer, now)) + Them(Leaving(node))
        == View(Takeover(node, token, older, newer, now), newer);
  }

  /** A socket on which nothing happens carries a session, too. */
  lemma UnusedIsSession(s: Server, run: seq<Deed>, k: M.Socket)
    requires forall i :: 0 <= i < |run| ==> run[i].actor != Peer(k)
    ensures IsSession(s, run, k)
  {
    var actions := seq(|run|, (i: nat) requires i < |run| => run[i].action);
    LooksOn(s, k, [], actions);
    assert [] + Others(actions) == Others(actions) && [] + Them(actions) == View(run, k);
    assert Whole(s, k, Others(actions)) == View(run, k);
    assert Carries(s, run, k, Others(actions), []);
  }

  lemma TakeoverIsMadeOfSessions(node: NodeId, token: string, older: M.Socket, newer: M.Socket, now: int)
    requires older != newer
    ensures MadeOfSessions(EMPTY, Takeover(node, token, older, newer, now))
  {
    var run := Takeover(node, token, older, newer, now);
    forall k ensures IsSession(EMPTY, run, k) {
      if k == older {
        OlderIsSession(node, token, older, newer, now);
      } else if k == newer {
        var turns := NewerIsOpen(node, token, older, newer, now);
        assert Carries(EMPTY, run, newer, turns, []);
      } else {
        UnusedIsSession(EMPTY, run, k);
      }
    }
  }

  lemma TakeoverRuns(node: NodeId, token: string, older: M.Socket, newer: M.Socket, now: int)
    ensures var run := Takeover(node, token, older, newer, now);
            && |run| == 7
            && M.Holds(At(EMPTY, run, 5).table, node, newer)
            && node !in At(EMPTY, run, 7).table.connections
  {
    var run := Takeover(node, token, older, newer, now);
    assert run[4].action == OnTable(M.Connect(node, newer));
    assert At(EMPTY, run, 5) == Apply(At(EMPTY, run, 4), run[4].action);
    assert run[5].action == OnTable(M.Disconnect(node));
    assert At(EMPTY, run, 6) == Apply(At(EMPTY, run, 5), run[5].action);
    assert At(EMPTY, run, 7) == Apply(At(EMPTY, run, 6), run[6].action);
  }

  /** From an empty server, a run of two sessions of one node: the newer one's socket is registered,
      the older one cleans up, and the node is not connected although the newer session is open. */
  lemma OlderSessionTakesNewerDown(node: NodeId, token: string, older: M.Socket, newer: M.Socket, now: int)
    returns (turns: seq<Turn>)
    requires older != newer
    ensures var run := Takeover(node, token, older, newer, now);
            && MadeOfSessions(EMPTY, run) && |run| == 7
            && Follow(EMPTY, newer, turns) == Session(Open(node), View(run, newer))
            && M.Holds(At(EMPTY, run, 5).table, node, newer)
            && node !in At(EMPTY, run, 7).table.connections
  {
    TakeoverIsMadeOfSessions(node, token, older, newer, now);
    TakeoverRuns(node, token, older, newer, now);
    turns := NewerIsOpen(node, token, older, newer, now);
  }
}
