/**
 What the report of a dispatch is worth: every node is accounted for once, each awaited
 answer is decided by the first decisive event within its deadline, and collecting the
 answers takes the time a recurrence on their arrivals says.
 */
module PlaybackReports {
  import opened Wrappers
  import opened Manager
  import opened Playback

  // ----- Conservation -----

  lemma {:induction false} NodesAt(sent: seq<Sent>)
    ensures |Nodes(sent)| == |sent|
    ensures forall i :: 0 <= i < |sent| ==> Nodes(sent)[i] == sent[i].node
  {
    if sent != [] { NodesAt(sent[..|sent| - 1]); }
  }

  lemma {:induction false} IdsAt(results: seq<NodeResult>)
    ensures |Ids(results)| == |results|
    ensures forall i :: 0 <= i < |results| ==> Ids(results)[i] == results[i].node
  {
    if results != [] { IdsAt(results[..|results| - 1]); }
  }

  lemma IdsAppend(results: seq<NodeResult>, x: NodeResult)
    ensures Ids(results + [x]) == Ids(results) + [x.node]
  {
    assert (results + [x])[..|results|] == results;
  }

  lemma {:induction false} IdsOfConcat(a: seq<NodeResult>, b: seq<NodeResult>)
    ensures Ids(a + b) == Ids(a) + Ids(b)
  {
    if b == [] {
      assert a + b == a;
    } else {
      var b', x := b[..|b| - 1], b[|b| - 1];
      assert a + b == (a + b') + [x];
      IdsOfConcat(a, b');
      IdsAppend(a + b', x);
    }
  }

  predicate NoneAwaited(results: seq<NodeResult>) {
    forall i :: 0 <= i < |results| ==> !Awaited(results[i].status)
  }

  predicate AllAwaited(results: seq<NodeResult>) {
    forall i :: 0 <= i < |results| ==> Awaited(results[i].status)
  }

  /** Between them, a and b name every node of ids as often as ids does. */
  ghost predicate Accounts(a: seq<NodeId>, b: seq<NodeId>, ids: seq<NodeId>) {
    multiset(a) + multiset(b) == multiset(ids)
  }

  lemma OneMore(a: seq<NodeId>, b: seq<NodeId>, ids: seq<NodeId>, n: NodeId)
    requires Accounts(a, b, ids)
    ensures Accounts(a + [n], b, ids + [n]) && Accounts(a, b + [n], ids + [n])
  {
  }

  lemma {:induction false} PlanAccounts(c: Command, up: set<NodeId>, nodes: map<NodeId, bool>, w: World,
                                        ids: seq<NodeId>)
    ensures var p := PlanFor(c, up, nodes, w, ids); Accounts(Ids(p.immediate), Nodes(p.sent), ids)
  {
    if ids != [] {
      var before, n := ids[..|ids| - 1], ids[|ids| - 1];
      PlanAccounts(c, up, nodes, w, before);
      assert ids == before + [n];
      var p := PlanFor(c, up, nodes, w, before);
      OneMore(Ids(p.immediate), Nodes(p.sent), before, n);
      var v := Visit(c, up, nodes, w, p.cursor, n);
      if v.Reported? {
        IdsAppend(p.immediate, NodeResult(n, v.status));
      } else {
        NodesAppend(p.sent, Sent(n, p.cursor));
      }
    }
  }

  lemma {:induction false} PlanAwaitsNothing(c: Command, up: set<NodeId>, nodes: map<NodeId, bool>, w: World,
                                             ids: seq<NodeId>)
    ensures NoneAwaited(PlanFor(c, up, nodes, w, ids).immediate)
  {
    if ids != [] {
      PlanAwaitsNothing(c, up, nodes, w, ids[..|ids| - 1]);
      var before := PlanFor(c, up, nodes, w, ids[..|ids| - 1]).immediate;
      var after := PlanFor(c, up, nodes, w, ids).immediate;
      if after != before {
        assert after == before + [after[|before|]];
        assert !Awaited(after[|before|].status);
        StillNoneAwaited(before, after[|before|]);
      }
    }
  }

  lemma StillNoneAwaited(results: seq<NodeResult>, x: NodeResult)
    requires NoneAwaited(results) && !Awaited(x.status)
    ensures NoneAwaited(results + [x])
  {
  }

  lemma AwaitedAppend(results: seq<NodeResult>, x: NodeResult)
    ensures AllAwaited(results) && Awaited(x.status) ==> AllAwaited(results + [x])
  {
  }

  lemma OneMoreAnswer(c: Command, w: World, r: RequestId, x: Sent, done: Collected, timeout: nat)
    requires x.created <= |w.env| == |w.at|
    ensures var results := CollectOne(c, w, r, x, done, timeout).results;
            Ids(results) == Ids(done.results) + [x.node] && (AllAwaited(done.results) ==> AllAwaited(results))
  {
    var results := CollectOne(c, w, r, x, done, timeout).results;
    var last := results[|done.results|];
    assert results == done.results + [last];
    IdsAppend(done.results, last);
    AwaitedAppend(done.results, last);
  }

  lemma {:induction false} CollectAccounts(c: Command, w: World, r: RequestId, sent: seq<Sent>,
                                           start: int, timeout: nat)
    requires |w.at| == |w.env|
    requires forall i :: 0 <= i < |sent| ==> sent[i].created <= |w.env|
    ensures var results := Collect(c, w, r, sent, start, timeout).results;
            Ids(results) == Nodes(sent) && AllAwaited(results)
  {
    if sent != [] {
      var before := sent[..|sent| - 1];
      CollectAccounts(c, w, r, before, start, timeout);
      OneMoreAnswer(c, w, r, sent[|sent| - 1], Collect(c, w, r, before, start, timeout), timeout);
    }
  }

  /** For any request with any repeats, any node table, any failures and any interleaving: the
      results name exactly the de-duplicated nodes, once each, and the nodes for which a
      command was logged as sent, once each, are exactly those whose answer was awaited. */
  lemma ResultsAccountForEveryNode(c: Command, up: set<NodeId>, nodes: map<NodeId, bool>, w: World, r: RequestId,
                                   nodeIds: seq<NodeId>, begin: int, timeout: nat)
    requires |w.at| == |w.env|
    ensures var report := ReportFor(c, up, nodes, w, r, nodeIds, begin, timeout);
            && multiset(Ids(report.results)) == multiset(Dedup(nodeIds))
            && NoRepeats(Ids(report.results))
            && NoRepeats(report.logged)
            && (forall n :: n in report.logged ==> n in Ids(report.results))
            && (forall i :: 0 <= i < |report.results| ==>
                  (Awaited(report.results[i].status) <==> report.results[i].node in report.logged))
  {
    var ids := Dedup(nodeIds);
    var p := PlanFor(c, up, nodes, w, ids);
    var start := Clock(w, begin, p.cursor);
    var answers := Collect(c, w, r, p.sent, start, timeout).results;
    PlanAccounts(c, up, nodes, w, ids);
    PlanAwaitsNothing(c, up, nodes, w, ids);
    CollectAccounts(c, w, r, p.sent, start, timeout);
    IdsOfConcat(p.immediate, answers);
    SameMultisetSameRepeats(Ids(p.immediate + answers), ids);
    AwaitedAreTheSecondPart(p.immediate, answers);
    PartOfNoRepeats(Ids(p.immediate), Ids(answers));
  }

  lemma PartOfNoRepeats(a: seq<NodeId>, b: seq<NodeId>)
    requires NoRepeats(a + b)
    ensures NoRepeats(b) && forall n :: n in b ==> n in a + b
  {
    forall i, j | 0 <= i < j < |b| ensures b[i] != b[j] {
      assert b[i] == (a + b)[|a| + i] && b[j] == (a + b)[|a| + j];
    }
  }

  lemma AwaitedAreTheSecondPart(a: seq<NodeResult>, b: seq<NodeResult>)
    requires NoneAwaited(a) && AllAwaited(b) && NoRepeats(Ids(a + b))
    ensures forall i :: 0 <= i < |a + b| ==> (Awaited((a + b)[i].status) <==> (a + b)[i].node in Ids(b))
  {
    IdsAt(a + b);
    IdsAt(b);
    forall i | 0 <= i < |a + b| ensures Awaited((a + b)[i].status) <==> (a + b)[i].node in Ids(b) {
      if i < |a| {
        forall j | 0 <= j < |b| ensures Ids(b)[j] != a[i].node {
          assert Ids(a + b)[|a| + j] == (a + b)[|a| + j].node;
          assert Ids(a + b)[i] == a[i].node;
        }
      } else {
        assert Ids(b)[i - |a|] == (a + b)[i].node;
      }
    }
  }

  lemma RepeatCounts(s: seq<NodeId>, i: nat, j: nat)
    requires i < j < |s| && s[i] == s[j]
    ensures multiset(s)[s[i]] >= 2
  {
    assert s == s[..j] + [s[j]] + s[j + 1..];
    assert s[i] in s[..j];
  }

  lemma SplitLast<T>(s: seq<T>)
    requires s != []
    ensures s == s[..|s| - 1] + [s[|s| - 1]]
    ensures multiset(s) == multiset(s[..|s| - 1]) + multiset{s[|s| - 1]}
  {
    assert s == s[..|s| - 1] + [s[|s| - 1]];
  }

  lemma {:induction false} OneEach(s: seq<NodeId>, x: NodeId)
    requires NoRepeats(s)
    ensures multiset(s)[x] <= 1
  {
    if s != [] {
      SplitLast(s);
      OneEach(s[..|s| - 1], x);
    }
  }

  lemma SameMultisetSameRepeats(a: seq<NodeId>, b: seq<NodeId>)
    requires multiset(a) == multiset(b) && NoRepeats(b)
    ensures NoRepeats(a)
  {
    forall i, j | 0 <= i < j < |a| ensures a[i] != a[j] {
      OneEach(b, a[i]);
      if a[i] == a[j] { RepeatCounts(a, i, j); }
    }
  }

  /** De-duplication keeps order: x stands before y exactly when it first occurs before y. */
  function FirstAt(s: seq<NodeId>, x: NodeId): (i: nat)
    requires x in s
    ensures i < |s| && s[i] == x && x !in s[..i]
  {
    if s[0] == x then 0 else FirstAt(s[1..], x) + 1
  }

  lemma FirstAtUnique(s: seq<NodeId>, x: NodeId, i: nat)
    requires i < |s| && s[i] == x && x !in s[..i]
    ensures FirstAt(s, x) == i
  {
    if i > 0 {
      assert s[..i][0] == s[0];
      assert s[..i] == [s[0]] + s[1..][..i - 1];
      FirstAtUnique(s[1..], x, i - 1);
    }
  }

  lemma {:induction false} DedupKeepsOrder(s: seq<NodeId>, i: nat, j: nat)
    requires i < j < |Dedup(s)|
    ensures FirstAt(s, Dedup(s)[i]) < FirstAt(s, Dedup(s)[j])
  {
    var b, last := s[..|s| - 1], s[|s| - 1];
    assert s == b + [last];
    if j < |Dedup(b)| {
      DedupKeepsOrder(b, i, j);
      FirstAtPrefix(b, last, Dedup(s)[i]);
      FirstAtPrefix(b, last, Dedup(s)[j]);
    } else {
      assert Dedup(s)[j] == last && last !in b;
      FirstAtPrefix(b, last, Dedup(b)[i]);
      assert s[..|b|] == b;
      FirstAtUnique(s, last, |b|);
    }
  }

  lemma FirstAtPrefix(b: seq<NodeId>, last: NodeId, x: NodeId)
    requires x in b
    ensures x in b + [last] && FirstAt(b + [last], x) == FirstAt(b, x)
  {
    var i := FirstAt(b, x);
    assert (b + [last])[..i] == b[..i];
    assert (b + [last])[i] == x;
    FirstAtUnique(b + [last], x, i);
  }

  // ----- Time -----

  /** When each awaited answer arrives, if ever. */
  function Arrivals(w: World, r: RequestId, sent: seq<Sent>): (a: seq<Option<int>>)
    requires |w.at| == |w.env|
    requires forall i :: 0 <= i < |sent| ==> sent[i].created <= |w.env|
    ensures |a| == |sent|
    ensures forall i :: 0 <= i < |sent| ==>
              a[i] == (match Answer(w, r, sent[i]) case Some(j) => Some(w.at[j]) case None => None)
  {
    seq(|sent|, (i: nat) requires i < |sent| =>
      match Answer(w, r, sent[i]) case Some(j) => Some(w.at[j]) case None => None)
  }

  /** When the first n waits are over. */
  function EndOf(a: seq<Option<int>>, n: nat, start: int, timeout: nat): int
    requires n <= |a|
  {
    if n == 0 then start
    else
      var t := EndOf(a, n - 1, start, timeout);
      if a[n - 1].Some? && a[n - 1].value <= t + timeout then Max(t, a[n - 1].value) else t + timeout
  }

  predicate OnTime(a: seq<Option<int>>, i: nat, start: int, timeout: nat)
    requires i < |a|
  {
    a[i].Some? && a[i].value <= EndOf(a, i, start, timeout) + timeout
  }

  /** The latest of the start and the first n arrivals. */
  function Latest(a: seq<Option<int>>, n: nat, start: int): int
    requires n <= |a|
  {
    if n == 0 then start
    else
      var t := Latest(a, n - 1, start);
      if a[n - 1].Some? then Max(t, a[n - 1].value) else t
  }

  function ResultAt(c: Command, w: World, r: RequestId, sent: seq<Sent>, start: int, timeout: nat, i: nat): NodeResult
    requires |w.at| == |w.env| && i < |sent|
    requires forall i :: 0 <= i < |sent| ==> sent[i].created <= |w.env|
  {
    NodeResult(sent[i].node,
               if OnTime(Arrivals(w, r, sent), i, start, timeout)
               then StatusOf(c, w.env[Answer(w, r, sent[i]).value]) else TimedOut)
  }

  lemma OneMoreWait(c: Command, w: World, r: RequestId, sent: seq<Sent>, start: int, timeout: nat,
                    i: nat, done: Collected)
    requires |w.at| == |w.env| && i < |sent|
    requires forall i :: 0 <= i < |sent| ==> sent[i].created <= |w.env|
    requires done.finish == EndOf(Arrivals(w, r, sent), i, start, timeout)
    ensures CollectOne(c, w, r, sent[i], done, timeout) ==
            Collected(done.results + [ResultAt(c, w, r, sent, start, timeout, i)],
                      EndOf(Arrivals(w, r, sent), i + 1, start, timeout))
  {
  }

  /** The first n results are as the recurrence says. */
  predicate Expected(results: seq<NodeResult>, c: Command, w: World, r: RequestId, sent: seq<Sent>,
                     start: int, timeout: nat, n: nat)
    requires |w.at| == |w.env| && n <= |sent|
    requires forall i :: 0 <= i < |sent| ==> sent[i].created <= |w.env|
  {
    |results| == n && forall i :: 0 <= i < n ==> results[i] == ResultAt(c, w, r, sent, start, timeout, i)
  }

  /** Collecting the first n answers ends, and reports, as the recurrence says. */
  predicate TakesRecurrence(c: Command, w: World, r: RequestId, sent: seq<Sent>, start: int, timeout: nat, n: nat)
    requires |w.at| == |w.env| && n <= |sent|
    requires forall i :: 0 <= i < |sent| ==> sent[i].created <= |w.env|
  {
    var col := Collect(c, w, r, sent[..n], start, timeout);
    && col.finish == EndOf(Arrivals(w, r, sent), n, start, timeout)
    && Expected(col.results, c, w, r, sent, start, timeout, n)
  }

  lemma ExpectOneMore(results: seq<NodeResult>, c: Command, w: World, r: RequestId, sent: seq<Sent>,
                      start: int, timeout: nat, n: nat)
    requires |w.at| == |w.env| && n < |sent|
    requires forall i :: 0 <= i < |sent| ==> sent[i].created <= |w.env|
    requires Expected(results, c, w, r, sent, start, timeout, n)
    ensures Expected(results + [ResultAt(c, w, r, sent, start, timeout, n)], c, w, r, sent, start, timeout, n + 1)
  {
  }

  lemma {:induction false} CollectTakesRecurrence(c: Command, w: World, r: RequestId, sent: seq<Sent>,
                                                  start: int, timeout: nat, n: nat)
    requires |w.at| == |w.env| && n <= |sent|
    requires forall i :: 0 <= i < |sent| ==> sent[i].created <= |w.env|
    ensures TakesRecurrence(c, w, r, sent, start, timeout, n)
  {
    if n > 0 {
      CollectTakesRecurrence(c, w, r, sent, start, timeout, n - 1);
      CollectTakesOneMore(c, w, r, sent, start, timeout, n - 1);
    }
  }

  lemma CollectTakesOneMore(c: Command, w: World, r: RequestId, sent: seq<Sent>, start: int, timeout: nat, n: nat)
    requires |w.at| == |w.env| && n < |sent|
    requires forall i :: 0 <= i < |sent| ==> sent[i].created <= |w.env|
    requires TakesRecurrence(c, w, r, sent, start, timeout, n)
    ensures TakesRecurrence(c, w, r, sent, start, timeout, n + 1)
  {
    CollectNext(c, w, r, sent, start, timeout, n);
    var before := Collect(c, w, r, sent[..n], start, timeout);
    OneMoreWait(c, w, r, sent, start, timeout, n, before);
    ExpectOneMore(before.results, c, w, r, sent, start, timeout, n);
  }

  /** An awaited node is reported from a message exactly when there is a message of that node
      with this request id, arriving by the deadline of that node's wait, and before it -- since
      the command went out -- neither another such message nor a disconnect of the node. */
  lemma ReportedFromFirstMessage(c: Command, w: World, r: RequestId, sent: seq<Sent>,
                                 start: int, timeout: nat, i: nat, j: nat)
    requires |w.at| == |w.env| && i < |sent|
    requires forall i :: 0 <= i < |sent| ==> sent[i].created <= |w.env|
    requires sent[i].created <= j < |w.env| && Decides(w.env[j], Key(sent[i].node, r))
    requires forall h :: sent[i].created <= h < j ==> !Decides(w.env[h], Key(sent[i].node, r))
    ensures var results := Collect(c, w, r, sent, start, timeout).results;
            var deadline := EndOf(Arrivals(w, r, sent), i, start, timeout) + timeout;
            && |results| == |sent|
            && results[i] == NodeResult(sent[i].node,
                                        if w.env[j].Resolve? && w.at[j] <= deadline
                                        then FromAck(c, w.env[j].ack) else TimedOut)
  {
    CollectTakesRecurrence(c, w, r, sent, start, timeout, |sent|);
    assert sent[..|sent|] == sent;
    OneFirst(w.env, sent[i].created, j, Key(sent[i].node, r));
  }

  lemma OneFirst(trace: seq<Event>, from: nat, j: nat, k: Key)
    requires from <= j < |trace| && Decides(trace[j], k)
    requires forall h :: from <= h < j ==> !Decides(trace[h], k)
    ensures First(trace, from, |trace|, k) == Some(j)
  {
  }

  lemma SilenceTimesOut(c: Command, w: World, r: RequestId, sent: seq<Sent>, start: int, timeout: nat, i: nat)
    requires |w.at| == |w.env| && i < |sent|
    requires forall i :: 0 <= i < |sent| ==> sent[i].created <= |w.env|
    requires forall h :: sent[i].created <= h < |w.env| ==> !Decides(w.env[h], Key(sent[i].node, r))
    ensures var results := Collect(c, w, r, sent, start, timeout).results;
            |results| == |sent| && results[i] == NodeResult(sent[i].node, TimedOut)
  {
    CollectTakesRecurrence(c, w, r, sent, start, timeout, |sent|);
    assert sent[..|sent|] == sent;
  }

  /** k waits take at most k timeouts, from the start of collection. */
  lemma {:induction false} EndBounds(a: seq<Option<int>>, n: nat, start: int, timeout: nat)
    requires n <= |a|
    ensures start <= EndOf(a, n, start, timeout) <= start + n * timeout
  {
    if n > 0 {
      EndBounds(a, n - 1, start, timeout);
      assert n * timeout == (n - 1) * timeout + timeout;
    }
  }

  /** The bound is reached: silent nodes are waited for one after the other. */
  lemma {:induction false} SilenceAddsUp(a: seq<Option<int>>, n: nat, start: int, timeout: nat)
    requires n <= |a| && forall i :: 0 <= i < n ==> a[i].None?
    ensures EndOf(a, n, start, timeout) == start + n * timeout
  {
    if n > 0 {
      SilenceAddsUp(a, n - 1, start, timeout);
      assert n * timeout == (n - 1) * timeout + timeout;
    }
  }

  lemma {:induction false} EndWhileOnTime(a: seq<Option<int>>, n: nat, start: int, timeout: nat)
    requires n <= |a| && forall i :: 0 <= i < n ==> OnTime(a, i, start, timeout)
    ensures EndOf(a, n, start, timeout) == Latest(a, n, start)
  {
    if n > 0 {
      EndWhileOnTime(a, n - 1, start, timeout);
      assert OnTime(a, n - 1, start, timeout);
    }
  }

  predicate AllOnTime(a: seq<Option<int>>, n: nat, start: int, timeout: nat)
    requires n <= |a|
  {
    forall i :: 0 <= i < n ==> OnTime(a, i, start, timeout)
  }

  predicate Near(a: seq<Option<int>>, i: nat, start: int, timeout: nat)
    requires i < |a|
  {
    a[i].Some? && a[i].value <= Latest(a, i, start) + timeout
  }

  predicate Overlapping(a: seq<Option<int>>, n: nat, start: int, timeout: nat)
    requires n <= |a|
  {
    forall i :: 0 <= i < n ==> Near(a, i, start, timeout)
  }

  lemma OneMoreOnTime(a: seq<Option<int>>, n: nat, start: int, timeout: nat)
    requires n < |a|
    ensures AllOnTime(a, n + 1, start, timeout) <==> AllOnTime(a, n, start, timeout) && OnTime(a, n, start, timeout)
    ensures Overlapping(a, n + 1, start, timeout) <==> Overlapping(a, n, start, timeout) && Near(a, n, start, timeout)
  {
  }

  lemma OnTimeIsNear(a: seq<Option<int>>, n: nat, start: int, timeout: nat)
    requires n < |a| && AllOnTime(a, n, start, timeout)
    ensures OnTime(a, n, start, timeout) <==> Near(a, n, start, timeout)
  {
    EndWhileOnTime(a, n, start, timeout);
  }

  /** Every wait is over in time exactly if each answer arrives within one timeout of the latest of
      the start and the answers collected before it. */
  lemma {:induction false} AllOnTimeIff(a: seq<Option<int>>, n: nat, start: int, timeout: nat)
    requires n <= |a|
    ensures AllOnTime(a, n, start, timeout) <==> Overlapping(a, n, start, timeout)
  {
    if n > 0 {
      AllOnTimeIff(a, n - 1, start, timeout);
      OneMoreOnTime(a, n - 1, start, timeout);
      if AllOnTime(a, n - 1, start, timeout) {
        OnTimeIsNear(a, n - 1, start, timeout);
      }
    }
  }

  /** Answers within one timeout of the start are waited for together. */
  lemma PromptIsOnTime(a: seq<Option<int>>, start: int, timeout: nat)
    requires forall i :: 0 <= i < |a| ==> a[i].Some? && a[i].value <= start + timeout
    ensures AllOnTime(a, |a|, start, timeout)
    ensures Latest(a, |a|, start) <= start + timeout
  {
    forall i | 0 <= i < |a| ensures OnTime(a, i, start, timeout) {
      EndBounds(a, i, start, timeout);
    }
    LatestBound(a, |a|, start, start + timeout);
  }

  lemma {:induction false} LatestBound(a: seq<Option<int>>, n: nat, start: int, bound: int)
    requires n <= |a| && start <= bound
    requires forall i :: 0 <= i < n && a[i].Some? ==> a[i].value <= bound
    ensures start <= Latest(a, n, start) <= bound
  {
    if n > 0 { LatestBound(a, n - 1, start, bound); }
  }

  /** The whole dispatch: it ends within one timeout per awaited node of the end of the sends. */
  lemma DispatchEndsInTime(c: Command, up: set<NodeId>, nodes: map<NodeId, bool>, w: World, r: RequestId,
                           nodeIds: seq<NodeId>, begin: int, timeout: nat)
    requires |w.at| == |w.env|
    ensures var p := PlanFor(c, up, nodes, w, Dedup(nodeIds));
            var start := Clock(w, begin, p.cursor);
            var report := ReportFor(c, up, nodes, w, r, nodeIds, begin, timeout);
            start <= report.finish <= start + |report.logged| * timeout
  {
    var p := PlanFor(c, up, nodes, w, Dedup(nodeIds));
    var start := Clock(w, begin, p.cursor);
    CollectTakesRecurrence(c, w, r, p.sent, start, timeout, |p.sent|);
    assert p.sent[..|p.sent|] == p.sent;
    NodesAt(p.sent);
    EndBounds(Arrivals(w, r, p.sent), |p.sent|, start, timeout);
  }

  // ----- Whether anybody times out -----

  predicate NoTimeout(results: seq<NodeResult>) {
    forall i :: 0 <= i < |results| ==> !results[i].status.TimedOut?
  }

  /** What settles the i-th wait, if anything does, is a message: a disconnect settles it too, and is
      reported as a timeout. */
  predicate ByMessage(w: World, r: RequestId, sent: seq<Sent>, i: nat)
    requires i < |sent| && sent[i].created <= |w.env|
  {
    var a := Answer(w, r, sent[i]); a.Some? && w.env[a.value].Resolve?
  }

  predicate AllByMessage(w: World, r: RequestId, sent: seq<Sent>)
    requires forall i :: 0 <= i < |sent| ==> sent[i].created <= |w.env|
  {
    forall i :: 0 <= i < |sent| ==> ByMessage(w, r, sent, i)
  }

  lemma TimesOutUnless(c: Command, w: World, r: RequestId, sent: seq<Sent>, start: int, timeout: nat, i: nat)
    requires |w.at| == |w.env| && i < |sent|
    requires forall i :: 0 <= i < |sent| ==> sent[i].created <= |w.env|
    ensures ResultAt(c, w, r, sent, start, timeout, i).status.TimedOut?
       <==> !(OnTime(Arrivals(w, r, sent), i, start, timeout) && ByMessage(w, r, sent, i))
  {
  }

  lemma NoTimeoutAmongAnswers(c: Command, w: World, r: RequestId, sent: seq<Sent>, start: int, timeout: nat)
    requires |w.at| == |w.env|
    requires forall i :: 0 <= i < |sent| ==> sent[i].created <= |w.env|
    ensures NoTimeout(Collect(c, w, r, sent, start, timeout).results)
       <==> AllOnTime(Arrivals(w, r, sent), |sent|, start, timeout) && AllByMessage(w, r, sent)
  {
    var results := Collect(c, w, r, sent, start, timeout).results;
    CollectTakesRecurrence(c, w, r, sent, start, timeout, |sent|);
    assert sent[..|sent|] == sent;
    forall i | 0 <= i < |sent|
      ensures results[i].status.TimedOut?
         <==> !(OnTime(Arrivals(w, r, sent), i, start, timeout) && ByMessage(w, r, sent, i))
    {
      TimesOutUnless(c, w, r, sent, start, timeout, i);
    }
  }

  lemma NoTimeoutBefore(a: seq<NodeResult>, b: seq<NodeResult>)
    requires NoneAwaited(a)
    ensures NoTimeout(a + b) <==> NoTimeout(b)
  {
    if NoTimeout(a + b) {
      forall i | 0 <= i < |b| ensures !b[i].status.TimedOut? {
        assert b[i] == (a + b)[|a| + i];
      }
    }
  }

  lemma FinishOfReport(c: Command, up: set<NodeId>, nodes: map<NodeId, bool>, w: World, r: RequestId,
                       nodeIds: seq<NodeId>, begin: int, timeout: nat)
    requires |w.at| == |w.env|
    ensures var p := PlanFor(c, up, nodes, w, Dedup(nodeIds));
            ReportFor(c, up, nodes, w, r, nodeIds, begin, timeout).finish
            == EndOf(Arrivals(w, r, p.sent), |p.sent|, Clock(w, begin, p.cursor), timeout)
  {
    var p := PlanFor(c, up, nodes, w, Dedup(nodeIds));
    CollectTakesRecurrence(c, w, r, p.sent, Clock(w, begin, p.cursor), timeout, |p.sent|);
    assert p.sent[..|p.sent|] == p.sent;
  }

  /** Nobody is reported as timed out exactly if what settles each wait is a message, and arrives
      within one timeout of the latest of the end of the sends and the messages collected before
      it; and then the dispatch ends with the latest message, not with the sum of the waits. */
  lemma NobodyTimesOutIff(c: Command, up: set<NodeId>, nodes: map<NodeId, bool>, w: World, r: RequestId,
                          nodeIds: seq<NodeId>, begin: int, timeout: nat)
    requires |w.at| == |w.env|
    ensures var p := PlanFor(c, up, nodes, w, Dedup(nodeIds));
            var start := Clock(w, begin, p.cursor);
            var a := Arrivals(w, r, p.sent);
            var report := ReportFor(c, up, nodes, w, r, nodeIds, begin, timeout);
            && (NoTimeout(report.results) <==>
                  Overlapping(a, |p.sent|, start, timeout) && AllByMessage(w, r, p.sent))
            && (NoTimeout(report.results) ==> report.finish == Latest(a, |p.sent|, start))
  {
    var p := PlanFor(c, up, nodes, w, Dedup(nodeIds));
    var start := Clock(w, begin, p.cursor);
    var a := Arrivals(w, r, p.sent);
    PlanAwaitsNothing(c, up, nodes, w, Dedup(nodeIds));
    NoTimeoutBefore(p.immediate, Collect(c, w, r, p.sent, start, timeout).results);
    NoTimeoutAmongAnswers(c, w, r, p.sent, start, timeout);
    AllOnTimeIff(a, |p.sent|, start, timeout);
    FinishOfReport(c, up, nodes, w, r, nodeIds, begin, timeout);
    if AllOnTime(a, |p.sent|, start, timeout) { EndWhileOnTime(a, |p.sent|, start, timeout); }
  }

  /** Every node sends its message within one timeout of the start, before any disconnect. */
  predicate AllPrompt(w: World, r: RequestId, sent: seq<Sent>, start: int, timeout: nat)
    requires |w.at| == |w.env| && forall i :: 0 <= i < |sent| ==> sent[i].created <= |w.env|
  {
    forall i :: 0 <= i < |sent| ==>
      ByMessage(w, r, sent, i) && w.at[Answer(w, r, sent[i]).value] <= start + timeout
  }

  lemma PromptArrives(w: World, r: RequestId, sent: seq<Sent>, start: int, timeout: nat)
    requires |w.at| == |w.env| && forall i :: 0 <= i < |sent| ==> sent[i].created <= |w.env|
    requires AllPrompt(w, r, sent, start, timeout)
    ensures AllByMessage(w, r, sent) && AllOnTime(Arrivals(w, r, sent), |sent|, start, timeout)
    ensures Latest(Arrivals(w, r, sent), |sent|, start) <= start + timeout
  {
    var a := Arrivals(w, r, sent);
    forall i | 0 <= i < |sent| ensures a[i].Some? && a[i].value <= start + timeout {
      assert ByMessage(w, r, sent, i);
    }
    PromptIsOnTime(a, start, timeout);
  }

  /** In particular if every node sends its message within one timeout of the end of the sends. */
  lemma PromptMessagesOverlap(c: Command, up: set<NodeId>, nodes: map<NodeId, bool>, w: World, r: RequestId,
                              nodeIds: seq<NodeId>, begin: int, timeout: nat)
    requires |w.at| == |w.env|
    requires var p := PlanFor(c, up, nodes, w, Dedup(nodeIds));
             AllPrompt(w, r, p.sent, Clock(w, begin, p.cursor), timeout)
    ensures var p := PlanFor(c, up, nodes, w, Dedup(nodeIds));
            var start := Clock(w, begin, p.cursor);
            var report := ReportFor(c, up, nodes, w, r, nodeIds, begin, timeout);
            && NoTimeout(report.results)
            && report.finish == Latest(Arrivals(w, r, p.sent), |p.sent|, start) <= start + timeout
  {
    var p := PlanFor(c, up, nodes, w, Dedup(nodeIds));
    var start := Clock(w, begin, p.cursor);
    PromptArrives(w, r, p.sent, start, timeout);
    AllOnTimeIff(Arrivals(w, r, p.sent), |p.sent|, start, timeout);
    NobodyTimesOutIff(c, up, nodes, w, r, nodeIds, begin, timeout);
  }
}
