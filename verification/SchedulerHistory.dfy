/**
 What a run of the scheduler looks like afterwards: how often each position was played, which
 configuration update won, and when an undisturbed tick set its next deadline.
 */
module SchedulerHistory {
  import opened Wrappers
  import opened Arithmetic
  import opened Scheduler
  import opened SchedulerRuns
  import Manager
  import opened Playback
  import opened PlaybackReports

  // ----- Fair shares -----

  function Count(log: seq<Tick>, p: int): nat {
    if log == [] then 0
    else Count(log[..|log| - 1], p) + (if log[|log| - 1].position == p then 1 else 0)
  }

  /** How many of the first k turns of a rotation over n positions, starting at i, fall on p. */
  function Share(i: int, n: int, p: int, k: nat): int
    requires n > 0
  {
    (k + n - 1 - (p - i) % n) / n
  }

  /** Turn k falls on p exactly when k is congruent to the distance from i to p. */
  lemma TurnFallsOn(i: int, n: int, p: int, k: int)
    requires 0 <= p < n
    ensures (i + k) % n == p <==> (k - (p - i) % n) % n == 0
  {
    var d := (p - i) % n;
    RemainderMod(0, n, p);
    CongruentIff(i + k, p, n);
    assert i + k - p == k - (p - i);
    CongruentIff(k, p - i, n);
    RemainderMod(0, n, d);
    CongruentIff(k, d, n);
  }

  predicate Rotates(log: seq<Tick>, i: int, n: int)
    requires n > 0
  {
    forall j :: 0 <= j < |log| ==> log[j].position == (i + j) % n
  }

  lemma {:induction false} PlaysAreShares(log: seq<Tick>, i: int, n: int, p: int)
    requires 0 <= p < n
    requires Rotates(log, i, n)
    ensures Count(log, p) == Share(i, n, p, |log|)
  {
    var d := (p - i) % n;
    if log == [] {
      assert 0 <= n - 1 - d < n;
    } else {
      var k := |log| - 1;
      assert forall j :: 0 <= j < k ==> log[..k][j] == log[j];
      PlaysAreShares(log[..k], i, n, p);
      DivSucc(k + n - 1 - d, n);
      TurnFallsOn(i, n, p, k);
      assert (k + n - 1 - d) + 1 == (k - d) + n;
      CongruentIff(k - d + n, k - d, n);
      RemainderMod(1, n, 0);
    }
  }

  lemma SharesDiffer(i: int, n: int, p: int, q: int, k: nat)
    requires n > 0
    ensures Share(i, n, p, k) - Share(i, n, q, k) <= 1
  {
    var a, b := (p - i) % n, (q - i) % n;
    var x, y := k + n - 1 - a, k + n - 1 - b;
    assert x <= y + n - 1;
    assert x == x / n * n + x % n && y == y / n * n + y % n;
    assert (x / n - y / n) * n < 2 * n;
    AtMostOne(x / n - y / n, n);
  }

  lemma AtMostOne(d: int, n: int)
    requires n > 0 && d * n < 2 * n
    ensures d <= 1
  {
    MultipleIsFar(d - 1, n);
    assert (d - 1) * n == d * n - n;
  }

  lemma WholeRound(i: int, n: int, p: int)
    requires n > 0
    ensures Share(i, n, p, n) == 1
  {
    var d := (p - i) % n;
    assert n + n - 1 - d == 1 * n + (n - 1 - d);
    RemainderMod(1, n, n - 1 - d);
  }

  /** The ticks completed between s and its later state t. */
  function CompletedSince(s: State, t: State): seq<Tick>
    requires |s.completed| <= |t.completed|
  {
    t.completed[|s.completed|..]
  }

  lemma SinceRotates(s: State, t: State, n: nat)
    requires n > 0 && PlaysInTurn(s, t, n)
    ensures Rotates(CompletedSince(s, t), s.config.index, n)
  {
    var log := CompletedSince(s, t);
    forall j | 0 <= j < |log| ensures log[j].position == (s.config.index + j) % n {
      assert log[j] == t.completed[|s.completed| + j];
    }
  }

  lemma WindowRotates(log: seq<Tick>, i: int, n: int, a: nat)
    requires n > 0 && Rotates(log, i, n) && a + n <= |log|
    ensures Rotates(log[a..a + n], i + a, n)
  {
    var window := log[a..a + n];
    forall j | 0 <= j < |window| ensures window[j].position == (i + a + j) % n {
      assert window[j] == log[a + j];
    }
  }

  lemma SharesAreEven(log: seq<Tick>, i: int, n: nat, p: int, q: int)
    requires n > 0 && Rotates(log, i, n) && 0 <= p < n && 0 <= q < n
    ensures Count(log, p) - Count(log, q) <= 1
  {
    PlaysAreShares(log, i, n, p);
    PlaysAreShares(log, i, n, q);
    SharesDiffer(i, n, p, q, |log|);
  }

  lemma EveryRoundIsWhole(log: seq<Tick>, i: int, n: nat, p: int, a: nat)
    requires n > 0 && Rotates(log, i, n) && 0 <= p < n && a + n <= |log|
    ensures Count(log[a..a + n], p) == 1
  {
    WindowRotates(log, i, n, a);
    PlaysAreShares(log[a..a + n], i + a, n, p);
    WholeRound(i + a, n, p);
  }

  /** Over any stretch of any run in which n spots are active, whichever they are: among the ticks
      completed in it no position is ahead of another by more than one play, and any n
      consecutive ones play every position once. */
  lemma FairRotation(s: State, es: seq<Event>, n: nat, p: int, q: int, a: nat)
    requires n > 0 && Steady(s, es, n) && InStep(s, n) && Sound(s)
    requires 0 <= p < n && 0 <= q < n
    ensures |s.completed| <= |Run(s, es).completed|
    ensures var log := CompletedSince(s, Run(s, es));
            && Count(log, p) - Count(log, q) <= 1
            && (a + n <= |log| ==> Count(log[a..a + n], p) == 1)
  {
    RoundRobin(s, es, n);
    SinceRotates(s, Run(s, es), n);
    var log := CompletedSince(s, Run(s, es));
    SharesAreEven(log, s.config.index, n, p, q);
    if a + n <= |log| {
      EveryRoundIsWhole(log, s.config.index, n, p, a);
    }
  }

  // ----- Configuration updates -----

  predicate Succeeds(s: State, e: Event) {
    e.Update? && Accepts(s, e.update)
  }

  function Successes(s: State, es: seq<Event>): nat {
    if es == [] then 0
    else
      var before := es[..|es| - 1];
      Successes(s, before) + (if Succeeds(Run(s, before), es[|es| - 1]) then 1 else 0)
  }

  /** The revision counts the updates that succeeded, exactly. */
  lemma {:induction false} RevisionCountsUpdates(s: State, es: seq<Event>)
    ensures Run(s, es).config.revision == s.config.revision + Successes(s, es)
  {
    if es != [] { RevisionCountsUpdates(s, es[..|es| - 1]); }
  }

  /** From u to v the revision has not gone back, and if it stands still so do interval and sequence. */
  predicate Owned(u: Config, v: Config) {
    && u.revision <= v.revision
    && (u.revision == v.revision ==> u.interval == v.interval && u.sequence == v.sequence)
  }

  lemma StepOwns(s: State, e: Event)
    ensures Owned(s.config, Step(s, e).config)
  {
  }

  lemma NextOwns(s: State, es: seq<Event>, c: Config, j: nat, next: nat)
    requires next == j + 1 <= |es| && Owned(c, Run(s, es[..j]).config)
    ensures Owned(c, Run(s, es[..next]).config)
  {
    RunPrefix(s, es, j);
    StepOwns(Run(s, es[..j]), es[j]);
  }

  /** Between two points of a run the revision never goes back, and while it stands still the
      interval and the sequence do too. */
  lemma {:induction false} RevisionOwnsSettings(s: State, es: seq<Event>, i: nat, j: nat)
    requires i <= j <= |es|
    ensures Owned(Run(s, es[..i]).config, Run(s, es[..j]).config)
    decreases j
  {
    if i < j {
      RevisionOwnsSettings(s, es, i, j - 1);
      NextOwns(s, es, Run(s, es[..i]).config, j - 1, j);
    }
  }

  /** Of all the updates in a run that carry the same expected revision, at most one succeeds. */
  lemma OneWinnerPerRevision(s: State, es: seq<Event>, i: nat, j: nat)
    requires i < j < |es| && es[i].Update? && es[j].Update?
    requires es[i].update.expected.Some? && es[j].update.expected == es[i].update.expected
    requires Succeeds(Run(s, es[..i]), es[i])
    ensures !Succeeds(Run(s, es[..j]), es[j])
  {
    assert es[..i + 1][..i] == es[..i];
    RevisionOwnsSettings(s, es, i + 1, j);
  }

  /** An update that succeeds with the revision its author had read at point i overwrites exactly
      the interval and the sequence its author had read, and nobody's later ones. */
  lemma OverwritesWhatWasRead(s: State, es: seq<Event>, i: nat, j: nat)
    requires i <= j < |es| && Succeeds(Run(s, es[..j]), es[j])
    requires es[j].update.expected == Some(Run(s, es[..i]).config.revision)
    ensures Run(s, es[..j]).config.interval == Run(s, es[..i]).config.interval
    ensures Run(s, es[..j]).config.sequence == Run(s, es[..i]).config.sequence
    ensures Run(s, es[..j + 1]).config.interval == es[j].update.interval
    ensures Run(s, es[..j + 1]).config.sequence == es[j].update.sequence
  {
    RevisionOwnsSettings(s, es, i, j);
    assert es[..j + 1][..j] == es[..j];
  }

  // ----- The deadline an undisturbed tick sets -----

  lemma TickBegins(s: State)
    requires Sound(s) && Due(s) && !Misfires(s) && s.lock.None? && Playing(s) != []
    ensures var u := Step(Step(s, Fire), Check(s.nextTick));
            Underway(u, s.nextTick) && u.config == s.config && u.now == s.now
  {
    var u, p := Step(s, Fire), s.config.index % |Playing(s)|;
    assert Playing(s)[p] in Playing(s);
    assert u.ticks[s.nextTick].spot == Playing(s)[p];
  }

  /** The state after a tick from s during which nothing else happens, and whose dispatch returns
      at time `finish`. */
  function AfterTick(s: State, finish: int): State
    requires s.now <= finish
  {
    Step(Step(Step(Step(s, Fire), Check(s.nextTick)), Advance(finish - s.now)), Finish(s.nextTick))
  }

  /** That tick leaves the row and the timer at deadline d. */
  predicate TickSets(s: State, finish: int, d: int)
    requires s.now <= finish
  {
    var t := AfterTick(s, finish); t.job == Some(d) && t.config.nextRun == Some(d)
  }

  /** The tick's next deadline is an interval after its finish, and so at least an interval after it
      began, and at most an interval and k timeouts after its last send. */
  predicate NextDeadlineWithin(s: State, finish: int, sent: int, k: nat, timeout: nat) {
    var interval := 60 * s.config.interval;
    && s.now <= sent <= finish
    && TickSets(s, finish, finish + interval)
    && s.now + interval <= finish + interval <= sent + interval + k * timeout
  }

  lemma TickArms(s: State, finish: int)
    requires Sound(s) && Due(s) && !Misfires(s) && s.lock.None? && Playing(s) != [] && s.now <= finish
    ensures TickSets(s, finish, finish + 60 * s.config.interval)
  {
    TickBegins(s);
  }

  lemma NotBeforeBegin(w: World, begin: int, q: nat)
    requires Timed(w, begin) && q <= |w.env|
    ensures begin <= Clock(w, begin, q)
  {
  }

  lemma TickWithin(s: State, finish: int, sent: int, k: nat, timeout: nat)
    requires Sound(s) && Due(s) && !Misfires(s) && s.lock.None? && Playing(s) != []
    requires s.now <= sent <= finish <= sent + k * timeout
    ensures NextDeadlineWithin(s, finish, sent, k, timeout)
  {
    TickArms(s, finish);
  }

  /** An undisturbed tick arms the timer one interval after its own play command has been reported
      on; so its next deadline lies at least an interval after it began, and at most an interval
      and one timeout per node that the command went out to after the last send was over. */
  lemma UndisturbedTickDeadline(s: State, up: set<Manager.NodeId>, nodes: map<Manager.NodeId, bool>, w: World,
                                r: Manager.RequestId, targets: seq<Manager.NodeId>, timeout: nat)
    requires Sound(s) && Due(s) && !Misfires(s) && s.lock.None? && Playing(s) != []
    requires Timed(w, s.now)
    ensures var report := ReportFor(Play, up, nodes, w, r, targets, s.now, timeout);
            var sent := Clock(w, s.now, PlanFor(Play, up, nodes, w, Dedup(targets)).cursor);
            NextDeadlineWithin(s, report.finish, sent, |report.logged|, timeout)
  {
    DispatchEndsInTime(Play, up, nodes, w, r, targets, s.now, timeout);
    var sent := Clock(w, s.now, PlanFor(Play, up, nodes, w, Dedup(targets)).cursor);
    NotBeforeBegin(w, s.now, PlanFor(Play, up, nodes, w, Dedup(targets)).cursor);
    var report := ReportFor(Play, up, nodes, w, r, targets, s.now, timeout);
    TickWithin(s, report.finish, sent, |report.logged|, timeout);
  }
}
